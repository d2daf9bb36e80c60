/**
 The live gateway as a state machine over bindings: placing an order reserves the binding, submits
 and records the acknowledgement; reconciliation and a manual halt resolve what is left open.
 Adapter and exchange answers are parameters; each public operation is one step.
 */
module Gateway {
  import opened Common
  import opened Execution
  import opened PreflightBindings
  import opened Reconciliation

  /** An acknowledgement; one that accepts carries a non-empty external id. */
  datatype Receipt_ = Receipt(requestId: string, accepted: bool, externalId: Option<string>) {
    predicate Valid() {
      accepted ==> externalId.Some? && externalId.value != ""
    }
  }

  type Receipt = r: Receipt_ | r.Valid() witness Receipt("", false, None)

  /** An order acknowledged by the adapter, or proven to exist by a reconciliation. */
  datatype Acceptance = Acceptance(request: Request, externalId: Option<string>)

  /** `submitted` and `accepted` record what was sent and what was accepted; they influence nothing. */
  datatype State = State(
    store: Store,
    receipts: map<string, Receipt>,
    submitted: map<string, Request>,
    accepted: seq<Acceptance>)

  const Initial := State(map[], map[], map[], [])

  /** What the adapter answers while an order is placed; `None` stands for an exception. */
  datatype Answers = Answers(
    checksPass: bool,
    healthy: Option<bool>,
    openOrders: Option<nat>,
    positions: Option<seq<LivePosition>>,
    placement: Option<Receipt>)

  datatype ExchangeState = ExchangeState(
    clientOrder: Option<ReconciledOrder>, fills: seq<ExchangeFill>, openOrders: seq<OpenOrder>, positions: seq<LivePosition>)

  datatype Outcome = Replayed | Rejected | Raised | Acknowledged(receipt: Receipt) | Updated

  // ---------- Transitions of one binding ----------

  function Next(b: Binding, state: BindingState, now: int): Binding {
    b.(state := state, version := b.version + 1, updatedAt := Some(now))
  }

  /** The identity checks of a request: signal, venues and leg role. */
  predicate Validated(r: Request) {
    && r.preflight.signalId == r.signalId
    && r.preflight.receiveVenue == r.receiveVenue && r.preflight.payVenue == r.payVenue
    && r.receiveVenue != r.payVenue
    && r.exchange == (if r.role.ReceiveLeg? then r.receiveVenue else r.payVenue)
  }

  predicate HedgingAllowed(b: Binding, r: Request) {
    var opposite := b.firstLegRole != Some(r.role);
    match r.action
    case None => opposite
    case Some(FirstLegUnwind) => r.reduceOnly && b.firstLegRole == Some(r.role)
    case Some(_) => opposite
  }

  /** The reserved binding, if the request may use the signal's binding now. */
  function Reserve(current: Binding, r: Request, now: int): Option<Binding> {
    if current.state.Unbound? || current.state.Aborted? then
      if r.action.Some? then None
      else
        var b := NewBinding(r.signalId, r.preflight, Reserved, now);
        Some(if current.state.Aborted? then b.(version := current.version + 1, createdAt := current.createdAt) else b)
    else if current.preflightHash != Some(r.preflight) then None
    else if current.state.FirstLegAccepted? then
      if current.firstLegRole == Some(r.role) || r.action.Some? then None
      else Some(Next(current, SecondLegSubmitted, now).(secondRequestId := Some(r.requestId)))
    else if current.state.HedgingRequired? && HedgingAllowed(current, r) then
      Some(Next(current, SecondLegSubmitted, now).(secondRequestId := Some(r.requestId)))
    else None
  }

  function Acknowledge(b: Binding, r: Request, receipt: Receipt, now: int): Binding {
    if !receipt.accepted then Next(b, if b.state.SecondLegSubmitted? then HedgingRequired else Aborted, now)
    else if b.state.SecondLegSubmitted? then Next(b, Completed, now).(secondExternalId := receipt.externalId)
    else Next(b, FirstLegAccepted, now).(firstLegRole := Some(r.role), firstRequestId := Some(r.requestId), firstExternalId := receipt.externalId)
  }

  function RequireReconciliation(b: Binding, r: Request, now: int): Binding {
    if b.state.Reserved? then Next(b, ReconciliationRequired, now).(firstRequestId := Some(r.requestId))
    else if b.state.SecondLegSubmitted? then Next(b, ReconciliationRequired, now).(secondRequestId := Some(r.requestId))
    else b
  }

  function Resolve(b: Binding, r: Request, verdict: Verdict, now: int): Binding {
    var second := b.secondRequestId == Some(r.requestId);
    match verdict
    case Exists(id) =>
      if second then Next(b, Completed, now).(secondExternalId := id)
      else Next(b, FirstLegAccepted, now).(firstLegRole := Some(r.role), firstRequestId := Some(r.requestId), firstExternalId := id)
    case Absent => Next(b, if second then HedgingRequired else Aborted, now)
    case _ => Next(b, Halted, now)
  }

  /** A conflicting write found exchange state: the binding goes, or stays, in doubt. */
  function EnsureReconciliation(b: Binding, r: Request, now: int): Binding {
    if b.state.Unbound? || b.state.Aborted? then
      NewBinding(r.signalId, r.preflight, ReconciliationRequired, now).(
        version := b.version + 1, createdAt := Some(b.createdAt.GetOr(now)), firstRequestId := Some(r.requestId), baseline := b.baseline)
    else RequireReconciliation(b, r, now)
  }

  /** Every transition is derived from the binding it starts from, so it takes part in the version chain. */
  lemma {:induction false} TransitionsAreDerived(b: Binding, r: Request, receipt: Receipt, verdict: Verdict, state: BindingState, now: int)
    requires b.signalId == r.signalId && (b.state.Unbound? ==> b == UnboundBinding(r.signalId))
    ensures Reserve(b, r, now).Some? ==> Derived(b, Reserve(b, r, now).value)
    ensures Derived(b, Next(b, state, now)) && Derived(b, Acknowledge(b, r, receipt, now)) && Derived(b, Resolve(b, r, verdict, now))
    ensures b.state.Reserved? || b.state.SecondLegSubmitted? ==> Derived(b, RequireReconciliation(b, r, now))
    ensures b.state.Unbound? || (b.state.Aborted? && b.createdAt.Some?) ==> Derived(b, EnsureReconciliation(b, r, now))
  {
  }

  // ---------- Operations ----------

  /** Writes a binding through the compare-and-set of the store. */
  function Save(s: State, b: Binding): State {
    s.(store := Cas(s.store, b.signalId, b.version - 1, b).0)
  }

  function Reject(s: State, r: Request): (State, Outcome) {
    (s.(receipts := s.receipts[r.idempotencyKey := Receipt(r.requestId, false, None)]), Outcome.Rejected)
  }

  function Abort(s: State, signalId: string, now: int): State {
    Save(s, Next(Current(s.store, signalId), Aborted, now))
  }

  function PositionQuantity(positions: seq<LivePosition>, r: Request): real {
    var matching := PositionsOf(r, positions);
    if matching == [] then 0.0 else matching[0].quantity
  }

  /** A reduce-only order must close part of the position that the exchange reports. */
  predicate ReducesPosition(r: Request, quantity: real) {
    && quantity != 0.0
    && ((quantity > 0.0 && r.side.Sell?) || (quantity < 0.0 && r.side.Buy?))
    && r.quantity <= Abs(quantity)
  }

  function Submit(s: State, r: Request, placement: Option<Receipt>, now: int): (State, Outcome) {
    var sent := s.(submitted := s.submitted[r.signalId := r]);
    var b := Current(sent.store, r.signalId);
    if placement.None? || placement.value.requestId != r.requestId then (Save(sent, RequireReconciliation(b, r, now)), Raised)
    else
      var saved := Save(sent, Acknowledge(b, r, placement.value, now));
      var logged := if placement.value.accepted then saved.accepted + [Acceptance(r, placement.value.externalId)] else saved.accepted;
      (saved.(receipts := saved.receipts[r.idempotencyKey := placement.value], accepted := logged), Acknowledged(placement.value))
  }

  /** From a reserved binding to submission: any failure before the submission aborts the binding. */
  function AfterReserve(s: State, r: Request, a: Answers, maximumOpenOrders: nat, now: int): (State, Outcome) {
    if a.openOrders.None? then (Abort(s, r.signalId, now), Raised)
    else if a.openOrders.value >= maximumOpenOrders then Reject(Abort(s, r.signalId, now), r)
    else if a.positions.None? then (Abort(s, r.signalId, now), Raised)
    else
      var quantity := PositionQuantity(a.positions.value, r);
      var current := Current(s.store, r.signalId);
      var recorded := Save(s, Next(current, current.state, now).(baseline := Some(PositionBaseline(r.exchange, r.symbol, quantity, now))));
      if r.reduceOnly && !ReducesPosition(r, quantity) then Reject(Abort(recorded, r.signalId, now), r)
      else Submit(recorded, r, a.placement, now)
  }

  predicate HashConflict(b: Binding, r: Request) {
    !b.state.Unbound? && !b.state.Aborted? && b.preflightHash != Some(r.preflight)
  }

  function PlaceOrder(s: State, r: Request, a: Answers, maximumOpenOrders: nat, now: int): (State, Outcome) {
    var current := Current(s.store, r.signalId);
    if r.idempotencyKey in s.receipts then (s, Replayed)
    else if !Validated(r) || !a.checksPass || HashConflict(current, r) then Reject(s, r)
    else if a.healthy.None? then (s, Raised)
    else if !a.healthy.value then Reject(s, r)
    else
      var reserved := Reserve(current, r, now);
      if reserved.None? then Reject(s, r)
      else AfterReserve(Save(s, reserved.value), r, a, maximumOpenOrders, now)
  }

  function ReconcileBinding(s: State, r: Request, exchange: Option<ExchangeState>, now: int): (State, Outcome) {
    var b := Current(s.store, r.signalId);
    if !b.state.ReconciliationRequired? then (s, Raised)
    else if exchange.None? then (Save(s, Next(b, Halted, now)), Updated)
    else
      var x := exchange.value;
      var verdict := Judge(r, Collect(r, b.baseline, x.clientOrder, x.fills, x.openOrders, x.positions, now));
      var saved := Save(s, Resolve(b, r, verdict, now));
      (if verdict.Exists? then saved.(accepted := saved.accepted + [Acceptance(r, verdict.externalId)]) else saved, Updated)
  }

  function HaltBinding(s: State, signalId: string, now: int): (State, Outcome) {
    var b := Current(s.store, signalId);
    if b.state.HedgingRequired? || b.state.ReconciliationRequired? then (Save(s, Next(b, Halted, now)), Updated)
    else (s, Raised)
  }

  datatype Operation =
    | Place(request: Request, answers: Answers, maximumOpenOrders: nat, now: int)
    | Reconcile(request: Request, exchange: Option<ExchangeState>, now: int)
    | Halt(signalId: string, now: int)

  function Step(s: State, op: Operation): (State, Outcome) {
    match op
    case Place(r, a, maximum, now) => PlaceOrder(s, r, a, maximum, now)
    case Reconcile(r, exchange, now) => ReconcileBinding(s, r, exchange, now)
    case Halt(signalId, now) => HaltBinding(s, signalId, now)
  }

  /** A reconciliation is called with the request that was submitted. */
  predicate Proper(s: State, op: Operation) {
    op.Reconcile? ==> op.request.signalId in s.submitted && op.request == s.submitted[op.request.signalId]
  }

  ghost predicate Runs(s: State, ops: seq<Operation>)
    decreases |ops|
  {
    ops == [] || (Proper(s, ops[0]) && Runs(Step(s, ops[0]).0, ops[1..]))
  }

  function After(s: State, ops: seq<Operation>): State
    decreases |ops|
  {
    if ops == [] then s else After(Step(s, ops[0]).0, ops[1..])
  }

  // ---------- Invariant ----------

  /** The acceptance that the binding remembers as its first leg. */
  predicate IsFirst(a: Acceptance, b: Binding) {
    && a.request.signalId == b.signalId && Some(a.request.preflight) == b.preflightHash
    && b.firstLegRole == Some(a.request.role)
    && b.firstRequestId == Some(a.request.requestId) && b.firstExternalId == a.externalId
  }

  predicate IsSecond(a: Acceptance, b: Binding) {
    && a.request.signalId == b.signalId && Some(a.request.preflight) == b.preflightHash
    && b.secondRequestId == Some(a.request.requestId) && b.secondExternalId == a.externalId
  }

  /** A second order hedges on the other leg, or unwinds the first. */
  predicate Completes(first: Option<Role>, r: Request) {
    first != Some(r.role) || (r.reduceOnly && r.action == Some(FirstLegUnwind))
  }

  ghost predicate FirstAccepted(accepted: seq<Acceptance>, b: Binding) {
    exists i :: 0 <= i < |accepted| && IsFirst(accepted[i], b)
  }

  ghost predicate BothAccepted(accepted: seq<Acceptance>, b: Binding) {
    exists i, j :: 0 <= i < j < |accepted| && IsFirst(accepted[i], b) && IsSecond(accepted[j], b)
                   && Completes(b.firstLegRole, accepted[j].request)
  }

  /** The request that a binding in doubt is waiting for. */
  ghost predicate InDoubt(s: State, b: Binding) {
    && b.signalId in s.submitted
    && var r := s.submitted[b.signalId];
    && Validated(r) && r.signalId == b.signalId && b.preflightHash == Some(r.preflight)
    && if b.secondRequestId.None? then b.firstRequestId == Some(r.requestId)
       else b.secondRequestId == Some(r.requestId) && FirstAccepted(s.accepted, b) && Completes(b.firstLegRole, r)
  }

  ghost predicate BindingOk(s: State, b: Binding) {
    && b.version >= 1
    && match b.state
       case Aborted => true
       case Halted => true
       case FirstLegAccepted => FirstAccepted(s.accepted, b)
       case HedgingRequired => FirstAccepted(s.accepted, b)
       case ReconciliationRequired => InDoubt(s, b)
       case Completed => BothAccepted(s.accepted, b)
       case _ => false
  }

  ghost predicate Inv(s: State) {
    && (forall id :: id in s.store ==> s.store[id].signalId == id && BindingOk(s, s.store[id]))
    && (forall i :: 0 <= i < |s.accepted| ==> Validated(s.accepted[i].request))
  }

  lemma {:induction false} AcceptedGrows(accepted: seq<Acceptance>, more: seq<Acceptance>, b: Binding)
    ensures FirstAccepted(accepted, b) ==> FirstAccepted(accepted + more, b)
    ensures BothAccepted(accepted, b) ==> BothAccepted(accepted + more, b)
  {
    if FirstAccepted(accepted, b) {
      var i :| 0 <= i < |accepted| && IsFirst(accepted[i], b);
      assert IsFirst((accepted + more)[i], b);
    }
    if BothAccepted(accepted, b) {
      var i, j :| 0 <= i < j < |accepted| && IsFirst(accepted[i], b) && IsSecond(accepted[j], b) && Completes(b.firstLegRole, accepted[j].request);
      assert IsFirst((accepted + more)[i], b) && IsSecond((accepted + more)[j], b);
    }
  }

  /** Changing one binding, and growing the logs, leaves the other bindings in order. */
  lemma {:induction false} UpdateKeepsInv(s: State, b: Binding, s': State, more: seq<Acceptance>)
    requires Inv(s)
    requires s'.store == s.store[b.signalId := b] && s'.accepted == s.accepted + more
    requires forall i :: 0 <= i < |more| ==> Validated(more[i].request)
    requires forall id :: id in s.submitted && id != b.signalId ==> id in s'.submitted && s'.submitted[id] == s.submitted[id]
    requires BindingOk(s', b)
    ensures Inv(s')
  {
    forall id | id in s'.store
      ensures s'.store[id].signalId == id && BindingOk(s', s'.store[id])
    {
      if id != b.signalId {
        AcceptedGrows(s.accepted, more, s.store[id]);
      }
    }
  }

  lemma {:induction false} AbortKeepsInv(s: State, b: Binding, s': State)
    requires Inv(s) && b.state.Aborted? && b.version >= 1
    requires s' == s.(store := s.store[b.signalId := b], receipts := s'.receipts)
    ensures Inv(s')
  {
    UpdateKeepsInv(s, b, s', []);
  }

  /** What holds of the binding between reservation and submission. */
  ghost predicate ReservedFor(s: State, b: Binding, r: Request) {
    && b.signalId == r.signalId && b.version >= 1 && b.preflightHash == Some(r.preflight) && Validated(r)
    && ((b.state.Reserved? && b.secondRequestId.None?)
        || (b.state.SecondLegSubmitted? && b.secondRequestId == Some(r.requestId)
            && FirstAccepted(s.accepted, b) && Completes(b.firstLegRole, r)))
  }

  lemma {:induction false} ReserveIsProper(s: State, r: Request, now: int)
    requires Inv(s) && Validated(r) && Reserve(Current(s.store, r.signalId), r, now).Some?
    ensures ReservedFor(s, Reserve(Current(s.store, r.signalId), r, now).value, r)
    ensures Reserve(Current(s.store, r.signalId), r, now).value.version == Current(s.store, r.signalId).version + 1
  {
    var current := Current(s.store, r.signalId);
    var b := Reserve(current, r, now).value;
    if current.state.FirstLegAccepted? || current.state.HedgingRequired? {
      assert BindingOk(s, current);
      var i :| 0 <= i < |s.accepted| && IsFirst(s.accepted[i], current);
      assert IsFirst(s.accepted[i], b);
    }
  }

  /** The first leg stays accepted through changes that do not touch what the binding says about it. */
  lemma {:induction false} FirstStays(accepted: seq<Acceptance>, b: Binding, b': Binding)
    requires FirstAccepted(accepted, b)
    requires b'.signalId == b.signalId && b'.preflightHash == b.preflightHash && b'.firstLegRole == b.firstLegRole
    requires b'.firstRequestId == b.firstRequestId && b'.firstExternalId == b.firstExternalId
    ensures FirstAccepted(accepted, b')
  {
    var i :| 0 <= i < |accepted| && IsFirst(accepted[i], b);
    assert IsFirst(accepted[i], b');
  }

  lemma {:induction false} AcknowledgeIsProper(s: State, b: Binding, r: Request, receipt: Receipt, now: int)
    requires ReservedFor(s, b, r)
    ensures var more := if receipt.accepted then [Acceptance(r, receipt.externalId)] else [];
            BindingOk(s.(accepted := s.accepted + more), Acknowledge(b, r, receipt, now))
  {
    var b' := Acknowledge(b, r, receipt, now);
    var a := Acceptance(r, receipt.externalId);
    if b.state.SecondLegSubmitted? {
      FirstStays(s.accepted, b, b');
      if receipt.accepted {
        SecondAcceptance(s.accepted, a, b');
      } else {
        assert s.accepted + [] == s.accepted;
      }
    } else if receipt.accepted {
      assert IsFirst((s.accepted + [a])[|s.accepted|], b');
    }
  }

  lemma {:induction false} SecondAcceptance(accepted: seq<Acceptance>, a: Acceptance, b: Binding)
    requires FirstAccepted(accepted, b) && IsSecond(a, b) && Completes(b.firstLegRole, a.request)
    ensures BothAccepted(accepted + [a], b)
  {
    var i :| 0 <= i < |accepted| && IsFirst(accepted[i], b);
    assert IsFirst((accepted + [a])[i], b) && IsSecond((accepted + [a])[|accepted|], b);
  }

  lemma {:induction false} DoubtIsProper(s: State, b: Binding, r: Request, now: int)
    requires ReservedFor(s, b, r) && r.signalId in s.submitted && s.submitted[r.signalId] == r
    ensures BindingOk(s, RequireReconciliation(b, r, now))
  {
    if b.state.SecondLegSubmitted? {
      FirstStays(s.accepted, b, RequireReconciliation(b, r, now));
    }
  }

  /** The state with one binding replaced. */
  function With(s: State, b: Binding): State {
    s.(store := s.store[b.signalId := b])
  }

  /** The compare-and-set of the next version succeeds. */
  lemma {:induction false} SaveReplaces(s: State, b: Binding, b': Binding)
    requires b'.signalId == b.signalId && b'.version == b.version + 1
    ensures Cas(With(s, b).store, b'.signalId, b'.version - 1, b').1
    ensures Save(With(s, b), b') == With(s, b')
  {
    assert s.store[b.signalId := b][b.signalId := b'] == s.store[b.signalId := b'];
  }

  lemma {:induction false} SubmitKeepsInv(s: State, b: Binding, r: Request, placement: Option<Receipt>, now: int)
    requires Inv(s) && ReservedFor(s, b, r)
    ensures Inv(Submit(With(s, b), r, placement, now).0)
  {
    var s' := Submit(With(s, b), r, placement, now).0;
    var sent := s.(submitted := s.submitted[r.signalId := r]);
    assert With(s, b).(submitted := s.submitted[r.signalId := r]) == With(sent, b);
    if placement.None? || placement.value.requestId != r.requestId {
      var b' := RequireReconciliation(b, r, now);
      SaveReplaces(sent, b, b');
      DoubtIsProper(sent, b, r, now);
      UpdateKeepsInv(s, b', s', []);
    } else {
      var b' := Acknowledge(b, r, placement.value, now);
      var more := if placement.value.accepted then [Acceptance(r, placement.value.externalId)] else [];
      SaveReplaces(sent, b, b');
      AcknowledgeIsProper(sent, b, r, placement.value, now);
      UpdateKeepsInv(s, b', s', more);
    }
  }

  lemma {:induction false} AbortedKeepsInv(s: State, b: Binding, r: Request, now: int)
    requires Inv(s) && b.signalId == r.signalId && b.version >= 1
    ensures Inv(Abort(With(s, b), r.signalId, now)) && Inv(Reject(Abort(With(s, b), r.signalId, now), r).0)
  {
    var b' := Next(b, Aborted, now);
    SaveReplaces(s, b, b');
    AbortKeepsInv(s, b', With(s, b'));
    AbortKeepsInv(s, b', Reject(With(s, b'), r).0);
  }

  lemma {:induction false} BaselineStaysReserved(s: State, b: Binding, r: Request, baseline: PositionBaseline, now: int)
    requires ReservedFor(s, b, r)
    ensures ReservedFor(s, Next(b, b.state, now).(baseline := Some(baseline)), r)
  {
    if b.state.SecondLegSubmitted? {
      FirstStays(s.accepted, b, Next(b, b.state, now).(baseline := Some(baseline)));
    }
  }

  lemma {:induction false} AfterReserveKeepsInv(s: State, b: Binding, r: Request, a: Answers, maximumOpenOrders: nat, now: int)
    requires Inv(s) && ReservedFor(s, b, r)
    ensures Inv(AfterReserve(With(s, b), r, a, maximumOpenOrders, now).0)
  {
    AbortedKeepsInv(s, b, r, now);
    if a.openOrders.Some? && a.openOrders.value < maximumOpenOrders && a.positions.Some? {
      var quantity := PositionQuantity(a.positions.value, r);
      var baseline := PositionBaseline(r.exchange, r.symbol, quantity, now);
      var b1 := Next(b, b.state, now).(baseline := Some(baseline));
      SaveReplaces(s, b, b1);
      AbortedKeepsInv(s, b1, r, now);
      BaselineStaysReserved(s, b, r, baseline, now);
      SubmitKeepsInv(s, b1, r, a.placement, now);
    }
  }

  lemma {:induction false} PlaceKeepsInv(s: State, r: Request, a: Answers, maximumOpenOrders: nat, now: int)
    requires Inv(s)
    ensures Inv(PlaceOrder(s, r, a, maximumOpenOrders, now).0)
  {
    var current := Current(s.store, r.signalId);
    if r.idempotencyKey !in s.receipts && Validated(r) && Reserve(current, r, now).Some? {
      var b := Reserve(current, r, now).value;
      ReserveIsProper(s, r, now);
      assert Save(s, b) == With(s, b);
      AfterReserveKeepsInv(s, b, r, a, maximumOpenOrders, now);
    }
  }

  lemma {:induction false} ResolveIsProper(s: State, b: Binding, r: Request, verdict: Verdict, now: int)
    requires InDoubt(s, b) && s.submitted[b.signalId] == r && b.version >= 1
    ensures var more := if verdict.Exists? then [Acceptance(r, verdict.externalId)] else [];
            BindingOk(s.(accepted := s.accepted + more), Resolve(b, r, verdict, now))
  {
    var b' := Resolve(b, r, verdict, now);
    if b.secondRequestId.Some? {
      FirstStays(s.accepted, b, b');
      if verdict.Exists? {
        SecondAcceptance(s.accepted, Acceptance(r, verdict.externalId), b');
      } else {
        assert s.accepted + [] == s.accepted;
      }
    } else if verdict.Exists? {
      assert IsFirst((s.accepted + [Acceptance(r, verdict.externalId)])[|s.accepted|], b');
    }
  }

  lemma {:induction false} ReconcileKeepsInv(s: State, r: Request, exchange: Option<ExchangeState>, now: int)
    requires Inv(s) && Proper(s, Reconcile(r, exchange, now))
    ensures Inv(ReconcileBinding(s, r, exchange, now).0)
  {
    var b := Current(s.store, r.signalId);
    var s' := ReconcileBinding(s, r, exchange, now).0;
    if b.state.ReconciliationRequired? {
      assert BindingOk(s, b);
      if exchange.None? {
        UpdateKeepsInv(s, Next(b, Halted, now), s', []);
      } else {
        var x := exchange.value;
        var verdict := Judge(r, Collect(r, b.baseline, x.clientOrder, x.fills, x.openOrders, x.positions, now));
        var more := if verdict.Exists? then [Acceptance(r, verdict.externalId)] else [];
        ResolveIsProper(s, b, r, verdict, now);
        UpdateKeepsInv(s, Resolve(b, r, verdict, now), s', more);
      }
    }
  }

  lemma {:induction false} StepKeepsInv(s: State, op: Operation)
    requires Inv(s) && Proper(s, op)
    ensures Inv(Step(s, op).0)
  {
    match op
    case Place(r, a, maximum, now) => PlaceKeepsInv(s, r, a, maximum, now);
    case Reconcile(r, exchange, now) => ReconcileKeepsInv(s, r, exchange, now);
    case Halt(signalId, now) =>
      var b := Current(s.store, signalId);
      if b.state.HedgingRequired? || b.state.ReconciliationRequired? {
        UpdateKeepsInv(s, Next(b, Halted, now), Step(s, op).0, []);
      }
  }

  lemma {:induction false} RunKeepsInv(s: State, ops: seq<Operation>)
    requires Inv(s) && Runs(s, ops)
    ensures Inv(After(s, ops))
    decreases |ops|
  {
    if ops != [] {
      StepKeepsInv(s, ops[0]);
      RunKeepsInv(Step(s, ops[0]).0, ops[1..]);
    }
  }

  // ---------- What completion means ----------

  /**
   In every run of one gateway a completed binding rests on two orders, one accepted or proven to
   exist after the other, under the same preflight: the second at the other venue, or a reduce-only
   unwind of the first. The binding carries exactly the external ids that came with the two.
   */
  lemma {:induction false} CompletionNeedsTwoOrders(ops: seq<Operation>, signalId: string)
    requires Runs(Initial, ops) && signalId in After(Initial, ops).store
    requires After(Initial, ops).store[signalId].state.Completed?
    ensures var s := After(Initial, ops);
            var b := s.store[signalId];
            exists i, j :: 0 <= i < j < |s.accepted| && IsFirst(s.accepted[i], b) && IsSecond(s.accepted[j], b)
              && CompletingPair(s.accepted[i].request, s.accepted[j].request)
  {
    RunKeepsInv(Initial, ops);
    var s := After(Initial, ops);
    var b := s.store[signalId];
    assert BindingOk(s, b);
    var i, j :| 0 <= i < j < |s.accepted| && IsFirst(s.accepted[i], b) && IsSecond(s.accepted[j], b)
                && Completes(b.firstLegRole, s.accepted[j].request);
    assert CompletingPair(s.accepted[i].request, s.accepted[j].request);
  }

  predicate CompletingPair(first: Request, second: Request) {
    && first.signalId == second.signalId && first.preflight == second.preflight
    && if first.role != second.role then first.exchange != second.exchange
       else second.reduceOnly && second.action == Some(FirstLegUnwind) && first.exchange == second.exchange
  }

  function SignalOf(op: Operation): string {
    if op.Halt? then op.signalId else op.request.signalId
  }

  /** Every binding is stored under its own signal. */
  predicate Keyed(s: State) {
    forall id :: id in s.store ==> s.store[id].signalId == id
  }

  /** Nothing but the binding of `signalId` may differ. */
  predicate Elsewhere(s: State, s': State, signalId: string) {
    Keyed(s') && s.store - {signalId} == s'.store - {signalId}
  }

  lemma {:induction false} SaveElsewhere(s: State, b: Binding)
    requires Keyed(s)
    ensures Elsewhere(s, Save(s, b), b.signalId)
  {
  }

  lemma {:induction false} SubmitElsewhere(s: State, r: Request, placement: Option<Receipt>, now: int)
    requires Keyed(s)
    ensures Elsewhere(s, Submit(s, r, placement, now).0, r.signalId)
  {
    var sent := s.(submitted := s.submitted[r.signalId := r]);
    var b := Current(sent.store, r.signalId);
    if placement.None? || placement.value.requestId != r.requestId {
      SaveElsewhere(sent, RequireReconciliation(b, r, now));
    } else {
      SaveElsewhere(sent, Acknowledge(b, r, placement.value, now));
    }
  }

  lemma {:induction false} AbortElsewhere(s: State, r: Request, now: int)
    requires Keyed(s)
    ensures Elsewhere(s, Abort(s, r.signalId, now), r.signalId)
    ensures Elsewhere(s, Reject(Abort(s, r.signalId, now), r).0, r.signalId)
  {
    SaveElsewhere(s, Next(Current(s.store, r.signalId), Aborted, now));
  }

  lemma {:induction false} AfterReserveElsewhere(s: State, r: Request, a: Answers, maximumOpenOrders: nat, now: int)
    requires Keyed(s)
    ensures Elsewhere(s, AfterReserve(s, r, a, maximumOpenOrders, now).0, r.signalId)
  {
    var current := Current(s.store, r.signalId);
    AbortElsewhere(s, r, now);
    if a.positions.Some? {
      var quantity := PositionQuantity(a.positions.value, r);
      var b := Next(current, current.state, now).(baseline := Some(PositionBaseline(r.exchange, r.symbol, quantity, now)));
      SaveElsewhere(s, b);
      AbortElsewhere(Save(s, b), r, now);
      SubmitElsewhere(Save(s, b), r, a.placement, now);
    }
  }

  lemma {:induction false} PlaceElsewhere(s: State, r: Request, a: Answers, maximumOpenOrders: nat, now: int)
    requires Keyed(s)
    ensures Elsewhere(s, PlaceOrder(s, r, a, maximumOpenOrders, now).0, r.signalId)
  {
    var reserved := Reserve(Current(s.store, r.signalId), r, now);
    if reserved.Some? {
      SaveElsewhere(s, reserved.value);
      AfterReserveElsewhere(Save(s, reserved.value), r, a, maximumOpenOrders, now);
    }
  }

  lemma {:induction false} ReconcileElsewhere(s: State, r: Request, exchange: Option<ExchangeState>, now: int)
    requires Keyed(s)
    ensures Elsewhere(s, ReconcileBinding(s, r, exchange, now).0, r.signalId)
  {
    var b := Current(s.store, r.signalId);
    SaveElsewhere(s, Next(b, Halted, now));
    if exchange.Some? {
      var x := exchange.value;
      SaveElsewhere(s, Resolve(b, r, Judge(r, Collect(r, b.baseline, x.clientOrder, x.fills, x.openOrders, x.positions, now)), now));
    }
  }

  /** An operation touches no signal but its own. */
  lemma {:induction false} OtherSignalsAreKept(s: State, op: Operation)
    requires Keyed(s)
    ensures Elsewhere(s, Step(s, op).0, SignalOf(op))
  {
    match op
    case Place(r, a, maximum, now) => PlaceElsewhere(s, r, a, maximum, now);
    case Reconcile(r, exchange, now) => ReconcileElsewhere(s, r, exchange, now);
    case Halt(signalId, now) => SaveElsewhere(s, Next(Current(s.store, signalId), Halted, now));
  }

  /** Completed and halted bindings are never left or changed. */
  lemma {:induction false} FinalStatesAreKept(s: State, op: Operation, signalId: string)
    requires Inv(s) && signalId in s.store
    requires s.store[signalId].state.Completed? || s.store[signalId].state.Halted?
    ensures signalId in Step(s, op).0.store && Step(s, op).0.store[signalId] == s.store[signalId]
  {
    if SignalOf(op) != signalId {
      OtherSignalsAreKept(s, op);
      assert signalId in s.store - {SignalOf(op)};
      assert (s.store - {SignalOf(op)})[signalId] == s.store[signalId];
    }
  }

  lemma {:induction false} FinalStatesLast(s: State, ops: seq<Operation>, signalId: string)
    requires Inv(s) && Runs(s, ops) && signalId in s.store
    requires s.store[signalId].state.Completed? || s.store[signalId].state.Halted?
    ensures signalId in After(s, ops).store && After(s, ops).store[signalId] == s.store[signalId]
    decreases |ops|
  {
    if ops != [] {
      FinalStatesAreKept(s, ops[0], signalId);
      StepKeepsInv(s, ops[0]);
      FinalStatesLast(Step(s, ops[0]).0, ops[1..], signalId);
    }
  }

  // ---------- External ids ----------

  ghost predicate Identified(accepted: seq<Acceptance>) {
    forall i :: 0 <= i < |accepted| ==> accepted[i].externalId.Some? && accepted[i].externalId.value != ""
  }

  /** Placing an order logs nothing, or the order with the id of its acceptance. */
  lemma {:induction false} PlaceIdentifies(s: State, r: Request, a: Answers, maximumOpenOrders: nat, now: int)
    ensures var s' := PlaceOrder(s, r, a, maximumOpenOrders, now).0;
            || s'.accepted == s.accepted
            || (a.placement.Some? && a.placement.value.accepted && s'.accepted == s.accepted + [Acceptance(r, a.placement.value.externalId)])
  {
  }

  lemma {:induction false} ReconcileIdentifies(s: State, r: Request, exchange: Option<ExchangeState>, now: int)
    requires Identified(s.accepted)
    ensures Identified(ReconcileBinding(s, r, exchange, now).0.accepted)
  {
    if exchange.Some? {
      var x, b := exchange.value, Current(s.store, r.signalId);
      var e := Collect(r, b.baseline, x.clientOrder, x.fills, x.openOrders, x.positions, now);
      if Judge(r, e).Exists? {
        ExistsIsSound(r, e);
      }
    }
  }

  lemma {:induction false} StepIdentifies(s: State, op: Operation)
    requires Identified(s.accepted)
    ensures Identified(Step(s, op).0.accepted)
  {
    match op
    case Place(r, a, maximum, now) => PlaceIdentifies(s, r, a, maximum, now);
    case Reconcile(r, exchange, now) => ReconcileIdentifies(s, r, exchange, now);
    case Halt(_, _) =>
  }

  lemma {:induction false} RunIdentifies(s: State, ops: seq<Operation>)
    requires Identified(s.accepted)
    ensures Identified(After(s, ops).accepted)
    decreases |ops|
  {
    if ops != [] {
      StepIdentifies(s, ops[0]);
      RunIdentifies(Step(s, ops[0]).0, ops[1..]);
    }
  }

  /** In every run a completed binding has both external ids, and neither is empty. */
  lemma {:induction false} CompletionHasBothIds(ops: seq<Operation>, signalId: string)
    requires Runs(Initial, ops) && signalId in After(Initial, ops).store
    requires After(Initial, ops).store[signalId].state.Completed?
    ensures var b := After(Initial, ops).store[signalId];
            && b.firstExternalId.Some? && b.firstExternalId.value != ""
            && b.secondExternalId.Some? && b.secondExternalId.value != ""
  {
    CompletionNeedsTwoOrders(ops, signalId);
    RunIdentifies(Initial, ops);
  }

  /** The binding that a reconciliation leaves does not depend on the order of the exchange's listings. */
  lemma {:induction false} ReconcileIgnoresListingOrder(s: State, r: Request, x: ExchangeState, y: ExchangeState, now: int)
    requires x.clientOrder == y.clientOrder && multiset(x.fills) == multiset(y.fills)
    requires multiset(x.openOrders) == multiset(y.openOrders) && multiset(x.positions) == multiset(y.positions)
    ensures ReconcileBinding(s, r, Some(x), now) == ReconcileBinding(s, r, Some(y), now)
  {
    CollectedVerdictIgnoresOrder(r, Current(s.store, r.signalId).baseline, x.clientOrder, x.fills, x.openOrders, x.positions,
                                 y.fills, y.openOrders, y.positions, now);
  }

  // ---------- What an abort forgets ----------

  /** The placement fails after the reservation but before the order is sent. */
  predicate FailsBeforeSubmission(r: Request, a: Answers, maximumOpenOrders: nat) {
    || a.openOrders.None? || a.openOrders.value >= maximumOpenOrders || a.positions.None?
    || (r.reduceOnly && !ReducesPosition(r, PositionQuantity(a.positions.value, r)))
  }

  /** The request reaches its reservation. */
  predicate Reserves(s: State, r: Request, a: Answers, now: int) {
    && r.idempotencyKey !in s.receipts && Validated(r) && a.checksPass && a.healthy == Some(true)
    && !HashConflict(Current(s.store, r.signalId), r) && Reserve(Current(s.store, r.signalId), r, now).Some?
  }

  lemma {:induction false} AbortStores(s: State, b: Binding, r: Request, now: int)
    requires b.signalId == r.signalId
    ensures Current(Abort(With(s, b), r.signalId, now).store, r.signalId) == Next(b, Aborted, now)
  {
    SaveReplaces(s, b, Next(b, Aborted, now));
  }

  /** After the reservation of a second leg the binding ends aborted exactly on such a failure. */
  lemma {:induction false} SecondLegAborts(s: State, b: Binding, r: Request, a: Answers, maximumOpenOrders: nat, now: int)
    requires b.state.SecondLegSubmitted? && b.signalId == r.signalId
    ensures Current(AfterReserve(With(s, b), r, a, maximumOpenOrders, now).0.store, r.signalId).state.Aborted?
            <==> FailsBeforeSubmission(r, a, maximumOpenOrders)
  {
    AbortStores(s, b, r, now);
    if a.openOrders.Some? && a.openOrders.value < maximumOpenOrders && a.positions.Some? {
      var quantity := PositionQuantity(a.positions.value, r);
      var b1 := Next(b, b.state, now).(baseline := Some(PositionBaseline(r.exchange, r.symbol, quantity, now)));
      SaveReplaces(s, b, b1);
      AbortStores(s, b1, r, now);
      SubmitEndsElsewhere(s, b1, r, a.placement, now);
    }
  }

  lemma {:induction false} SubmitEndsElsewhere(s: State, b: Binding, r: Request, placement: Option<Receipt>, now: int)
    requires b.state.SecondLegSubmitted? && b.signalId == r.signalId
    ensures !Current(Submit(With(s, b), r, placement, now).0.store, r.signalId).state.Aborted?
  {
    var sent := s.(submitted := s.submitted[r.signalId := r]);
    assert With(s, b).(submitted := s.submitted[r.signalId := r]) == With(sent, b);
    SaveReplaces(sent, b, RequireReconciliation(b, r, now));
    if placement.Some? {
      SaveReplaces(sent, b, Acknowledge(b, r, placement.value, now));
    }
  }

  /**
   An accepted first leg is not always remembered. While the binding waits for its second order or
   for a hedge, an order aborts it exactly when it is reserved and then fails before it is sent, and
   the reservation that follows an abort starts from a blank binding.
   */
  lemma {:induction false} FirstLegIsForgottenExactly(s: State, r: Request, a: Answers, maximumOpenOrders: nat, now: int)
    requires Inv(s) && RemembersFirst(Current(s.store, r.signalId))
    ensures Current(PlaceOrder(s, r, a, maximumOpenOrders, now).0.store, r.signalId).state.Aborted?
            <==> Reserves(s, r, a, now) && FailsBeforeSubmission(r, a, maximumOpenOrders)
    ensures forall b: Binding, later: Request, at: int {:trigger Reserve(b, later, at)} ::
              b.state.Aborted? && Reserve(b, later, at).Some? ==> Reserve(b, later, at).value.firstRequestId.None?
  {
    if Reserves(s, r, a, now) {
      var b := Reserve(Current(s.store, r.signalId), r, now).value;
      assert Save(s, b) == With(s, b);
      SecondLegAborts(s, b, r, a, maximumOpenOrders, now);
    }
  }

  /** The states in which a new order may follow an accepted first leg. */
  predicate RemembersFirst(b: Binding) {
    b.state.FirstLegAccepted? || b.state.HedgingRequired?
  }

  /** An adapter without objections that accepts the order under the id `id`. */
  function Accepting(r: Request, id: string): Answers
    requires id != ""
  {
    Answers(true, Some(true), Some(0), Some([]), Some(Receipt(r.requestId, true, Some(id))))
  }

  /** A healthy adapter that does not answer what is open. */
  const Unanswered := Answers(true, Some(true), None, None, None)

  /** A plain order that may open a leg: no recovery action, not reduce-only. */
  predicate Opens(r: Request) {
    Validated(r) && r.action.None? && !r.reduceOnly
  }

  /** A blank binding, whether new or aborted, takes an accepted order as its first leg. */
  lemma {:induction false} FirstOrderIsAccepted(s: State, r: Request, id: string, maximum: nat, now: int)
    requires Inv(s) && Opens(r) && r.idempotencyKey !in s.receipts && maximum > 0 && id != ""
    requires Current(s.store, r.signalId).state.Unbound? || Current(s.store, r.signalId).state.Aborted?
    ensures var s' := PlaceOrder(s, r, Accepting(r, id), maximum, now).0;
            && Current(s'.store, r.signalId).state.FirstLegAccepted?
            && Current(s'.store, r.signalId).preflightHash == Some(r.preflight)
            && Current(s'.store, r.signalId).firstLegRole == Some(r.role)
            && Current(s'.store, r.signalId).firstRequestId == Some(r.requestId)
            && Current(s'.store, r.signalId).secondRequestId.None?
            && s'.accepted == s.accepted + [Acceptance(r, Some(id))]
            && s'.receipts.Keys == s.receipts.Keys + {r.idempotencyKey}
  {
    assert PositionsOf(r, []) == [];
  }

  lemma {:induction false} SecondOrderAborts(s: State, r: Request, maximum: nat, now: int)
    requires Inv(s) && Opens(r) && r.idempotencyKey !in s.receipts
    requires Current(s.store, r.signalId).state.FirstLegAccepted?
    requires Current(s.store, r.signalId).preflightHash == Some(r.preflight) && Current(s.store, r.signalId).firstLegRole != Some(r.role)
    ensures var s' := PlaceOrder(s, r, Unanswered, maximum, now).0;
            && Current(s'.store, r.signalId).state.Aborted?
            && s'.accepted == s.accepted && s'.receipts == s.receipts
  {
    assert Reserves(s, r, Unanswered, now) && FailsBeforeSubmission(r, Unanswered, maximum);
    FirstLegIsForgottenExactly(s, r, Unanswered, maximum, now);
  }

  lemma {:induction false} ThreeSteps(s: State, one: Operation, two: Operation, three: Operation)
    requires one.Place? && two.Place? && three.Place?
    ensures Runs(s, [one, two, three])
    ensures After(s, [one, two, three]) == Step(Step(Step(s, one).0, two).0, three).0
  {
    var s1 := Step(s, one).0;
    var s2 := Step(s1, two).0;
    assert [one, two, three][1..] == [two, three] && [two, three][1..] == [three] && [three][1..] == [];
    assert After(s2, [three]) == Step(s2, three).0 && Runs(s2, [three]);
    assert After(s1, [two, three]) == After(s2, [three]) && Runs(s1, [two, three]);
  }

  lemma {:induction false} SecondOrderForgets(first: Request, second: Request, x: string, maximum: nat, now: int)
    requires Opens(first) && Opens(second) && maximum > 0 && x != ""
    requires first.signalId == second.signalId && first.preflight == second.preflight && first.role != second.role
    requires first.idempotencyKey != second.idempotencyKey
    ensures var s := PlaceOrder(PlaceOrder(Initial, first, Accepting(first, x), maximum, now).0, second, Unanswered, maximum, now).0;
            && Inv(s) && Current(s.store, first.signalId).state.Aborted?
            && s.accepted == [Acceptance(first, Some(x))] && s.receipts.Keys == {first.idempotencyKey}
  {
    var s1 := PlaceOrder(Initial, first, Accepting(first, x), maximum, now).0;
    FirstOrderIsAccepted(Initial, first, x, maximum, now);
    StepKeepsInv(Initial, Place(first, Accepting(first, x), maximum, now));
    SecondOrderAborts(s1, second, maximum, now);
    StepKeepsInv(s1, Place(second, Unanswered, maximum, now));
  }

  /**
   Such a run exists from the start: a first order is accepted, a second is reserved and fails before
   it is sent, and a third becomes the binding's first leg. The first order is still accepted, but
   the binding no longer knows of it; the third may even stand on the same leg.
   */
  lemma {:induction false} ForgottenFirstLeg(first: Request, second: Request, third: Request, x: string, y: string, maximum: nat, now: int)
    requires Opens(first) && Opens(second) && Opens(third) && maximum > 0 && x != "" && y != ""
    requires first.signalId == second.signalId == third.signalId && first.preflight == second.preflight && first.role != second.role
    requires first.idempotencyKey != second.idempotencyKey && first.idempotencyKey != third.idempotencyKey
    requires first.requestId != third.requestId
    ensures var ops := [Place(first, Accepting(first, x), maximum, now), Place(second, Unanswered, maximum, now),
                        Place(third, Accepting(third, y), maximum, now)];
            var s := After(Initial, ops);
            && Runs(Initial, ops) && s.accepted == [Acceptance(first, Some(x)), Acceptance(third, Some(y))]
            && Current(s.store, first.signalId).state.FirstLegAccepted?
            && Current(s.store, first.signalId).firstRequestId == Some(third.requestId)
            && Current(s.store, first.signalId).secondRequestId.None?
            && !IsFirst(s.accepted[0], Current(s.store, first.signalId))
  {
    var one, two := Place(first, Accepting(first, x), maximum, now), Place(second, Unanswered, maximum, now);
    var s1 := PlaceOrder(Initial, first, Accepting(first, x), maximum, now).0;
    SecondOrderForgets(first, second, x, maximum, now);
    FirstOrderIsAccepted(PlaceOrder(s1, second, Unanswered, maximum, now).0, third, y, maximum, now);
    ThreeSteps(Initial, one, two, Place(third, Accepting(third, y), maximum, now));
  }
}

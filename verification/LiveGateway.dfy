/** The gateway object: its repository and receipts change in place, step by step. */
module GatewayObjects {
  import opened Common
  import opened PreflightBindings
  import opened Reconciliation
  import opened Gateway

  class LiveGateway {
    const repository: InMemoryRepository
    const maximumOpenOrders: nat
    var receipts: map<string, Receipt>
    ghost var submitted: map<string, Request>
    ghost var accepted: seq<Acceptance>

    ghost function State(): Gateway.State
      reads this, repository
    {
      Gateway.State.State(repository.bindings, receipts, submitted, accepted)
    }

    /** The gateway is the only writer of its repository. */
    ghost predicate Valid()
      reads this, repository
    {
      Inv(State())
    }

    constructor (maximumOpenOrders: nat)
      ensures Valid() && State() == Initial && fresh(repository)
    {
      repository := new InMemoryRepository();
      this.maximumOpenOrders := maximumOpenOrders;
      receipts, submitted, accepted := map[], map[], [];
    }

    function Binding(signalId: string): PreflightBindings.Binding
      reads this, repository
    {
      Current(repository.bindings, signalId)
    }

    method Write(b: PreflightBindings.Binding) returns (ok: bool)
      modifies repository
      ensures State() == Save(old(State()), b)
      ensures ok == Cas(old(repository.bindings), b.signalId, b.version - 1, b).1
    {
      ok := repository.CompareAndSet(b.signalId, b.version - 1, b);
    }

    method Refuse(r: Request) returns (outcome: Outcome)
      modifies this`receipts
      ensures (State(), outcome) == Reject(old(State()), r)
    {
      receipts := receipts[r.idempotencyKey := Receipt(r.requestId, false, None)];
      outcome := Outcome.Rejected;
    }

    /** The signal's binding is reserved for an order. */
    predicate IsReserved(signalId: string)
      reads this, repository
    {
      && signalId in repository.bindings && repository.bindings[signalId].signalId == signalId
      && (repository.bindings[signalId].state.Reserved? || repository.bindings[signalId].state.SecondLegSubmitted?)
    }

    method AbortBinding(signalId: string, now: int)
      requires IsReserved(signalId)
      modifies repository
      ensures State() == Abort(old(State()), signalId, now)
    {
      var ok := Write(Next(Binding(signalId), Aborted, now));
      assert ok;
    }

    /** Sends the order and records the answer; neither write meets a version conflict. */
    method SubmitOrder(r: Request, placement: Option<Receipt>, now: int) returns (outcome: Outcome)
      requires IsReserved(r.signalId)
      modifies this`receipts, this`submitted, this`accepted, repository
      ensures (State(), outcome) == Submit(old(State()), r, placement, now)
    {
      submitted := submitted[r.signalId := r];
      var b := Binding(r.signalId);
      if placement.None? || placement.value.requestId != r.requestId {
        var marked := Write(RequireReconciliation(b, r, now));
        assert marked;
        return Raised;
      }
      var recorded := Write(Acknowledge(b, r, placement.value, now));
      assert recorded;
      receipts := receipts[r.idempotencyKey := placement.value];
      if placement.value.accepted {
        accepted := accepted + [Acceptance(r, placement.value.externalId)];
      }
      return Acknowledged(placement.value);
    }

    method SubmitReserved(r: Request, a: Answers, now: int) returns (outcome: Outcome)
      requires IsReserved(r.signalId)
      modifies this`receipts, this`submitted, this`accepted, repository
      ensures (State(), outcome) == AfterReserve(old(State()), r, a, maximumOpenOrders, now)
    {
      if a.openOrders.None? {
        AbortBinding(r.signalId, now);
        return Raised;
      }
      if a.openOrders.value >= maximumOpenOrders {
        AbortBinding(r.signalId, now);
        outcome := Refuse(r);
        return;
      }
      if a.positions.None? {
        AbortBinding(r.signalId, now);
        return Raised;
      }
      var quantity := PositionQuantity(a.positions.value, r);
      var current := Binding(r.signalId);
      var recorded := Write(Next(current, current.state, now).(baseline := Some(PositionBaseline(r.exchange, r.symbol, quantity, now))));
      assert recorded;
      if r.reduceOnly && !ReducesPosition(r, quantity) {
        AbortBinding(r.signalId, now);
        outcome := Refuse(r);
        return;
      }
      outcome := SubmitOrder(r, a.placement, now);
    }

    /** Places an order; with one gateway no write of the placement meets a version conflict. */
    method PlaceOrder(r: Request, a: Answers, now: int) returns (outcome: Outcome)
      requires Valid()
      modifies this`receipts, this`submitted, this`accepted, repository
      ensures Valid() && (State(), outcome) == Gateway.PlaceOrder(old(State()), r, a, maximumOpenOrders, now)
    {
      PlaceKeepsInv(State(), r, a, maximumOpenOrders, now);
      if r.idempotencyKey in receipts {
        return Replayed;
      }
      var current := Binding(r.signalId);
      if !Validated(r) || !a.checksPass || HashConflict(current, r) {
        outcome := Refuse(r);
        return;
      }
      if a.healthy.None? {
        return Raised;
      }
      if !a.healthy.value {
        outcome := Refuse(r);
        return;
      }
      var reserved := Reserve(current, r, now);
      if reserved.None? {
        outcome := Refuse(r);
        return;
      }
      ReserveIsProper(State(), r, now);
      var ok := Write(reserved.value);
      assert ok;
      outcome := SubmitReserved(r, a, now);
    }

    method ReconcileBinding(r: Request, exchange: Option<ExchangeState>, now: int) returns (outcome: Outcome)
      requires Valid() && Proper(State(), Reconcile(r, exchange, now))
      modifies this`accepted, repository
      ensures Valid() && (State(), outcome) == Gateway.ReconcileBinding(old(State()), r, exchange, now)
    {
      ReconcileKeepsInv(State(), r, exchange, now);
      var b := Binding(r.signalId);
      if !b.state.ReconciliationRequired? {
        return Raised;
      }
      if exchange.None? {
        var halted := Write(Next(b, Halted, now));
        assert halted;
        return Updated;
      }
      var x := exchange.value;
      var verdict := Judge(r, Collect(r, b.baseline, x.clientOrder, x.fills, x.openOrders, x.positions, now));
      var ok := Write(Resolve(b, r, verdict, now));
      assert ok;
      if verdict.Exists? {
        accepted := accepted + [Acceptance(r, verdict.externalId)];
      }
      return Updated;
    }

    method HaltBinding(signalId: string, now: int) returns (outcome: Outcome)
      requires Valid()
      modifies repository
      ensures Valid() && (State(), outcome) == Gateway.HaltBinding(old(State()), signalId, now)
    {
      StepKeepsInv(State(), Halt(signalId, now));
      var b := Binding(signalId);
      if b.state.HedgingRequired? || b.state.ReconciliationRequired? {
        var ok := Write(Next(b, Halted, now));
        assert ok;
        return Updated;
      }
      return Raised;
    }
  }
}

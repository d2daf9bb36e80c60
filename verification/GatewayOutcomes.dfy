/** What each answer of the adapter or the exchange makes of a binding, and the runs that recover from a refusal. */
module GatewayOutcomes {
  import opened Common
  import opened Execution
  import opened PreflightBindings
  import opened Reconciliation
  import opened Gateway

  // ---------- Which orders a binding admits ----------

  /** A blank binding admits an opening order. A binding with an accepted first leg admits the opposite leg under
      the same preflight, and while hedging also as a hedge, or a reduce-only unwind of the first leg. */
  predicate Admits(b: Binding, r: Request) {
    match b.state
    case Unbound => r.action.None?
    case Aborted => r.action.None?
    case FirstLegAccepted => b.preflightHash == Some(r.preflight) && b.firstLegRole != Some(r.role) && r.action.None?
    case HedgingRequired =>
      && b.preflightHash == Some(r.preflight)
      && if b.firstLegRole == Some(r.role) then r.reduceOnly && r.action == Some(FirstLegUnwind) else r.action != Some(FirstLegUnwind)
    case _ => false
  }

  lemma {:induction false} AdmitsExactly(b: Binding, r: Request, now: int)
    ensures Reserve(b, r, now).Some? <==> Admits(b, r)
    ensures Admits(b, r) && !RemembersFirst(b) ==>
              var n := Reserve(b, r, now).value;
              && n.state.Reserved? && n.firstRequestId.None? && n.secondRequestId.None? && n.preflightHash == Some(r.preflight)
              && n.baseline.None? && n.firstExternalId.None? && n.secondExternalId.None?
              && n.createdAt == (if b.state.Aborted? then b.createdAt else Some(now))
    ensures Admits(b, r) && RemembersFirst(b) ==>
              Reserve(b, r, now).value
              == b.(state := SecondLegSubmitted, secondRequestId := Some(r.requestId), version := b.version + 1, updatedAt := Some(now))
  {
  }

  function Signed(r: Request): real {
    if r.side.Buy? then r.quantity else -r.quantity
  }

  /** A reduce-only order passes exactly when it brings the position its whole quantity closer to zero. */
  lemma {:induction false} ReducesExactly(r: Request, position: real)
    requires r.quantity > 0.0
    ensures ReducesPosition(r, position) <==> Abs(position + Signed(r)) == Abs(position) - r.quantity
  {
  }

  /** The position that an order is measured against is the one the exchange lists for its venue and symbol. */
  lemma {:induction false} PositionIsReported(r: Request, positions: seq<LivePosition>, p: LivePosition)
    ensures PositionsOf(r, positions) == [p] ==> PositionQuantity(positions, r) == p.quantity
    ensures PositionsOf(r, positions) == [] ==> PositionQuantity(positions, r) == 0.0
  {
  }

  // ---------- Placing an order ----------

  /** The baseline that a placement records: the position that the exchange reports. */
  function BaselineFor(r: Request, positions: seq<LivePosition>, now: int): PositionBaseline {
    PositionBaseline(r.exchange, r.symbol, PositionQuantity(positions, r), now)
  }

  predicate Answered(r: Request, placement: Option<Receipt>) {
    placement.Some? && placement.value.requestId == r.requestId
  }

  lemma {:induction false} SubmitStores(s: State, b: Binding, r: Request, placement: Option<Receipt>, now: int)
    requires b.signalId == r.signalId && (b.state.Reserved? || b.state.SecondLegSubmitted?)
    ensures Current(Submit(With(s, b), r, placement, now).0.store, r.signalId)
            == if Answered(r, placement) then Acknowledge(b, r, placement.value, now) else RequireReconciliation(b, r, now)
  {
    var sent := s.(submitted := s.submitted[r.signalId := r]);
    assert With(s, b).(submitted := s.submitted[r.signalId := r]) == With(sent, b);
    if Answered(r, placement) {
      SaveReplaces(sent, b, Acknowledge(b, r, placement.value, now));
    } else {
      SaveReplaces(sent, b, RequireReconciliation(b, r, now));
    }
  }

  /** The binding as it is sent: reserved, with the baseline recorded. */
  function Sent(b: Binding, r: Request, positions: seq<LivePosition>, now: int): Binding
    requires Reserve(b, r, now).Some?
  {
    var n := Reserve(b, r, now).value;
    Next(n, n.state, now).(baseline := Some(BaselineFor(r, positions, now)))
  }

  lemma {:induction false} AfterReserveStores(s: State, b: Binding, r: Request, a: Answers, maximum: nat, now: int)
    requires b.signalId == r.signalId && (b.state.Reserved? || b.state.SecondLegSubmitted?)
    ensures FailsBeforeSubmission(r, a, maximum) ==>
              Current(AfterReserve(With(s, b), r, a, maximum, now).0.store, r.signalId).state.Aborted?
    ensures !FailsBeforeSubmission(r, a, maximum) ==>
              var sent := Next(b, b.state, now).(baseline := Some(BaselineFor(r, a.positions.value, now)));
              Current(AfterReserve(With(s, b), r, a, maximum, now).0.store, r.signalId)
              == if Answered(r, a.placement) then Acknowledge(sent, r, a.placement.value, now) else RequireReconciliation(sent, r, now)
  {
    AbortStores(s, b, r, now);
    if a.openOrders.Some? && a.openOrders.value < maximum && a.positions.Some? {
      var sent := Next(b, b.state, now).(baseline := Some(BaselineFor(r, a.positions.value, now)));
      SaveReplaces(s, b, sent);
      AbortStores(s, sent, r, now);
      SubmitStores(s, sent, r, a.placement, now);
    }
  }

  lemma {:induction false} PlaceStores(s: State, r: Request, a: Answers, maximum: nat, now: int)
    requires Inv(s) && Reserves(s, r, a, now)
    ensures var b, after := Current(s.store, r.signalId), Current(PlaceOrder(s, r, a, maximum, now).0.store, r.signalId);
            && (FailsBeforeSubmission(r, a, maximum) ==> after.state.Aborted?)
            && (!FailsBeforeSubmission(r, a, maximum) ==>
                  after == if Answered(r, a.placement) then Acknowledge(Sent(b, r, a.positions.value, now), r, a.placement.value, now)
                           else RequireReconciliation(Sent(b, r, a.positions.value, now), r, now))
  {
    var b := Current(s.store, r.signalId);
    var n := Reserve(b, r, now).value;
    AdmitsExactly(b, r, now);
    assert Save(s, n) == With(s, n);
    AfterReserveStores(s, n, r, a, maximum, now);
  }

  /** The binding still says the same of its first leg. */
  predicate SameFirst(b: Binding, after: Binding) {
    after.firstLegRole == b.firstLegRole && after.firstRequestId == b.firstRequestId && after.firstExternalId == b.firstExternalId
  }

  /** What an answer makes of a binding whose first leg was accepted before. */
  predicate SecondOutcome(b: Binding, after: Binding, r: Request, placement: Option<Receipt>) {
    && SameFirst(b, after) && after.secondRequestId == Some(r.requestId)
    && if !Answered(r, placement) then after.state.ReconciliationRequired?
       else if !placement.value.accepted then after.state.HedgingRequired?
       else after.state.Completed? && after.secondExternalId == placement.value.externalId
  }

  /** What an answer makes of a binding without a first leg. */
  predicate FirstOutcome(after: Binding, r: Request, placement: Option<Receipt>) {
    && after.secondRequestId.None?
    && if !Answered(r, placement) then after.state.ReconciliationRequired? && after.firstRequestId == Some(r.requestId)
       else if !placement.value.accepted then after.state.Aborted?
       else && after.state.FirstLegAccepted? && after.firstLegRole == Some(r.role)
            && after.firstRequestId == Some(r.requestId) && after.firstExternalId == placement.value.externalId
  }

  /**
   Every placement, by the adapter's answers. An order that its binding does not admit, or that fails a check,
   changes no binding. One that is reserved and fails before it is sent aborts the binding. One that is sent
   leaves its baseline, and: no answer, or one for another order, puts the binding in doubt; a refusal asks
   for a hedge if a first leg stands and else aborts; an acceptance completes a second order and makes a
   first leg of a first.
   */
  lemma {:induction false} PlacementOutcome(s: State, r: Request, a: Answers, maximum: nat, now: int)
    requires Inv(s)
    ensures var b, s' := Current(s.store, r.signalId), PlaceOrder(s, r, a, maximum, now).0;
            var after := Current(s'.store, r.signalId);
            && (Reserves(s, r, a, now) <==>
                  && r.idempotencyKey !in s.receipts && Validated(r) && a.checksPass && a.healthy == Some(true)
                  && Admits(b, r))
            && (!Reserves(s, r, a, now) ==> s'.store == s.store)
            && (Reserves(s, r, a, now) && FailsBeforeSubmission(r, a, maximum) ==> after.state.Aborted?)
            && (Reserves(s, r, a, now) && !FailsBeforeSubmission(r, a, maximum) ==>
                  && after.preflightHash == Some(r.preflight) && after.baseline == Some(BaselineFor(r, a.positions.value, now))
                  && if RemembersFirst(b) then SecondOutcome(b, after, r, a.placement) else FirstOutcome(after, r, a.placement))
  {
    AdmitsExactly(Current(s.store, r.signalId), r, now);
    if Reserves(s, r, a, now) {
      PlaceStores(s, r, a, maximum, now);
    }
  }

  /** Between the two states the key was recorded, unless the call raised. */
  predicate Remembers(s: State, key: string, s': State, outcome: Outcome) {
    (outcome.Raised? <==> key !in s'.receipts) && (outcome.Raised? ==> s'.receipts == s.receipts)
  }

  lemma {:induction false} SubmitRemembers(s: State, r: Request, placement: Option<Receipt>, now: int)
    requires r.idempotencyKey !in s.receipts
    ensures Remembers(s, r.idempotencyKey, Submit(s, r, placement, now).0, Submit(s, r, placement, now).1)
  {
  }

  lemma {:induction false} AfterReserveRemembers(s: State, r: Request, a: Answers, maximum: nat, now: int)
    requires r.idempotencyKey !in s.receipts
    ensures Remembers(s, r.idempotencyKey, AfterReserve(s, r, a, maximum, now).0, AfterReserve(s, r, a, maximum, now).1)
  {
    if a.positions.Some? {
      var current := Current(s.store, r.signalId);
      var baseline := PositionBaseline(r.exchange, r.symbol, PositionQuantity(a.positions.value, r), now);
      SubmitRemembers(Save(s, Next(current, current.state, now).(baseline := Some(baseline))), r, a.placement, now);
    }
  }

  lemma {:induction false} AnswerIsRemembered(s: State, r: Request, a: Answers, maximum: nat, now: int)
    ensures Remembers(s, r.idempotencyKey, PlaceOrder(s, r, a, maximum, now).0, PlaceOrder(s, r, a, maximum, now).1)
  {
    var reserved := Reserve(Current(s.store, r.signalId), r, now);
    if r.idempotencyKey !in s.receipts && reserved.Some? {
      AfterReserveRemembers(Save(s, reserved.value), r, a, maximum, now);
    }
  }

  /** An answered or rejected order is not sent twice: its key is remembered, and only a placement that raised may
      be repeated. */
  lemma {:induction false} AnsweredOnce(s: State, r: Request, a: Answers, maximum: nat, now: int, again: Request, b: Answers, later: int)
    requires again.idempotencyKey == r.idempotencyKey && Inv(s)
    ensures var (s', outcome) := PlaceOrder(s, r, a, maximum, now);
            && (outcome.Raised? <==> r.idempotencyKey !in s'.receipts)
            && (!outcome.Raised? ==> PlaceOrder(s', again, b, maximum, later) == (s', Replayed))
            && (outcome.Raised? ==> s'.receipts == s.receipts)
  {
    AnswerIsRemembered(s, r, a, maximum, now);
  }

  // ---------- Reconciliation and halts ----------

  /** What a verdict makes of a binding in doubt about its second order. */
  predicate SecondVerdict(b: Binding, after: Binding, verdict: Verdict) {
    && SameFirst(b, after) && after.secondRequestId == b.secondRequestId
    && match verdict
       case Exists(id) => after.state.Completed? && after.secondExternalId == id
       case Absent => after.state.HedgingRequired?
       case _ => after.state.Halted?
  }

  predicate FirstVerdict(after: Binding, r: Request, verdict: Verdict) {
    && after.secondRequestId.None?
    && match verdict
       case Exists(id) =>
         && after.state.FirstLegAccepted? && after.firstLegRole == Some(r.role)
         && after.firstRequestId == Some(r.requestId) && after.firstExternalId == id
       case Absent => after.state.Aborted?
       case _ => after.state.Halted?
  }

  /**
   Every reconciliation: only a binding in doubt changes. Without an answer of the exchange it is halted; an
   order proven to exist counts as accepted, one proven absent as refused, and any other verdict halts.
   */
  lemma {:induction false} ReconciliationOutcome(s: State, r: Request, exchange: Option<ExchangeState>, now: int)
    requires Inv(s) && Proper(s, Reconcile(r, exchange, now))
    ensures var b, s' := Current(s.store, r.signalId), ReconcileBinding(s, r, exchange, now).0;
            var after := Current(s'.store, r.signalId);
            && (!b.state.ReconciliationRequired? ==> s'.store == s.store)
            && (b.state.ReconciliationRequired? && exchange.None? ==> after.state.Halted?)
            && (b.state.ReconciliationRequired? && exchange.Some? ==>
                  var x := exchange.value;
                  var verdict := Judge(r, Collect(r, b.baseline, x.clientOrder, x.fills, x.openOrders, x.positions, now));
                  if b.secondRequestId.Some? then SecondVerdict(b, after, verdict) else FirstVerdict(after, r, verdict))
  {
    var b := Current(s.store, r.signalId);
    if b.state.ReconciliationRequired? {
      assert BindingOk(s, b);
    }
  }

  /** A manual halt takes effect exactly on a binding that waits for a hedge or a reconciliation. */
  lemma {:induction false} HaltOutcome(s: State, signalId: string, now: int)
    requires Inv(s)
    ensures var b, s' := Current(s.store, signalId), HaltBinding(s, signalId, now).0;
            if b.state.HedgingRequired? || b.state.ReconciliationRequired?
            then Current(s'.store, signalId).state.Halted? && SameFirst(b, Current(s'.store, signalId))
            else s' == s
  {
  }

  // ---------- Recovery from a refusal ----------

  /** An adapter without objections that reports `positions` and answers with `receipt`. */
  function Answering(positions: seq<LivePosition>, receipt: Receipt): Answers {
    Answers(true, Some(true), Some(0), Some(positions), Some(receipt))
  }

  /** A third order that may follow the refusal of a second one. */
  predicate Recovers(first: Request, third: Request, positions: seq<LivePosition>) {
    && Validated(third) && third.signalId == first.signalId && third.preflight == first.preflight
    && (third.role == first.role ==> third.reduceOnly && third.action == Some(FirstLegUnwind))
    && (third.role != first.role ==> third.action != Some(FirstLegUnwind))
    && (third.reduceOnly ==> ReducesPosition(third, PositionQuantity(positions, third)))
  }

  lemma {:induction false} FirstAcceptance(s: State, r: Request, id: string, maximum: nat, now: int)
    requires Inv(s) && Opens(r) && r.signalId !in s.store && r.idempotencyKey !in s.receipts && maximum > 0 && id != ""
    ensures var s' := PlaceOrder(s, r, Answering([], Receipt(r.requestId, true, Some(id))), maximum, now).0;
            var b := Current(s'.store, r.signalId);
            && Inv(s') && s'.receipts.Keys <= s.receipts.Keys + {r.idempotencyKey}
            && b.state.FirstLegAccepted? && b.firstLegRole == Some(r.role) && b.firstExternalId == Some(id) && b.preflightHash == Some(r.preflight)
  {
    var a := Answering([], Receipt(r.requestId, true, Some(id)));
    PlacementOutcome(s, r, a, maximum, now);
    PlaceKeepsInv(s, r, a, maximum, now);
  }

  lemma {:induction false} SecondRefusal(s: State, r: Request, maximum: nat, now: int)
    requires Inv(s) && Opens(r) && r.idempotencyKey !in s.receipts && maximum > 0
    requires var b := Current(s.store, r.signalId);
             b.state.FirstLegAccepted? && b.preflightHash == Some(r.preflight) && b.firstLegRole != Some(r.role)
    ensures var s' := PlaceOrder(s, r, Answering([], Receipt(r.requestId, false, None)), maximum, now).0;
            && Inv(s') && s'.receipts.Keys <= s.receipts.Keys + {r.idempotencyKey}
            && Current(s'.store, r.signalId).state.HedgingRequired? && SameFirst(Current(s.store, r.signalId), Current(s'.store, r.signalId))
            && Current(s'.store, r.signalId).preflightHash == Some(r.preflight)
  {
    var a := Answering([], Receipt(r.requestId, false, None));
    PlacementOutcome(s, r, a, maximum, now);
    PlaceKeepsInv(s, r, a, maximum, now);
  }

  lemma {:induction false} ThirdCompletes(s: State, first: Request, r: Request, positions: seq<LivePosition>, id: string, maximum: nat, now: int)
    requires Inv(s) && Recovers(first, r, positions) && r.idempotencyKey !in s.receipts && maximum > 0 && id != ""
    requires var b := Current(s.store, r.signalId);
             b.state.HedgingRequired? && b.preflightHash == Some(r.preflight) && b.firstLegRole == Some(first.role)
    ensures var s' := PlaceOrder(s, r, Answering(positions, Receipt(r.requestId, true, Some(id))), maximum, now).0;
            var b := Current(s'.store, r.signalId);
            b.state.Completed? && b.firstExternalId == Current(s.store, r.signalId).firstExternalId && b.secondExternalId == Some(id)
  {
    PlacementOutcome(s, r, Answering(positions, Receipt(r.requestId, true, Some(id))), maximum, now);
  }

  /**
   A refused second order is not the end: in every run from the start where a first order is accepted, the
   opposite one is sent and refused, and then an opposite order or a reduce-only unwind of the first leg is
   accepted, the binding is completed and carries the ids of the first and the third.
   */
  lemma {:induction false} RefusalIsRecovered(first: Request, second: Request, third: Request, positions: seq<LivePosition>,
                                              x: string, y: string, maximum: nat, now: int)
    requires Opens(first) && Opens(second) && Recovers(first, third, positions) && maximum > 0 && x != "" && y != ""
    requires first.signalId == second.signalId && first.preflight == second.preflight && first.role != second.role
    requires first.idempotencyKey != second.idempotencyKey && third.idempotencyKey !in {first.idempotencyKey, second.idempotencyKey}
    ensures var ops := [Place(first, Answering([], Receipt(first.requestId, true, Some(x))), maximum, now),
                        Place(second, Answering([], Receipt(second.requestId, false, None)), maximum, now),
                        Place(third, Answering(positions, Receipt(third.requestId, true, Some(y))), maximum, now)];
            var b := Current(Gateway.After(Initial, ops).store, first.signalId);
            && Gateway.Runs(Initial, ops) && b.state.Completed?
            && b.firstExternalId == Some(x) && b.secondExternalId == Some(y)
  {
    var one := Place(first, Answering([], Receipt(first.requestId, true, Some(x))), maximum, now);
    var two := Place(second, Answering([], Receipt(second.requestId, false, None)), maximum, now);
    FirstAcceptance(Initial, first, x, maximum, now);
    var s1 := PlaceOrder(Initial, first, one.answers, maximum, now).0;
    SecondRefusal(s1, second, maximum, now);
    var s2 := PlaceOrder(s1, second, two.answers, maximum, now).0;
    ThirdCompletes(s2, first, third, positions, y, maximum, now);
    ThreeSteps(Initial, one, two, Place(third, Answering(positions, Receipt(third.requestId, true, Some(y))), maximum, now));
  }
}

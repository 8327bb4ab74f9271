/** What is paid for over any run of order and payment requests. */
module SagaRuns {
  import opened Money
  import opened Payments
  import opened PaymentRuns
  import opened OrderSaga
  import History = TransactionHistory
  import opened Wrappers

  datatype Event =
    | Payment(request: Request<Item>)
    | InitiateOrder(username: string, price: Price, item: Item, paymentMethod: string, initiation: InitiationAnswers)
    | ExecuteOrder(username: string, order: OrderId, payment: PaymentId, answers: Answers)
    | CancelStale(now: int)
    | CancelNamed(order: OrderId)

  function StepState(s: State, factor: Fraction, e: Event): State
    requires Proper(factor)
  {
    match e
    case Payment(r) => s.(db := PaymentRuns.Step(s.db, r))
    case InitiateOrder(username, price, item, m, a) => OrderSaga.InitiateOrder(s, factor, username, price, item, m, a)
    case ExecuteOrder(username, o, id, a) => OrderSaga.ExecuteOrder(s, factor, username, o, id, a)
    case CancelStale(now) => s.(rows := History.Update(s.rows, History.Selected(s.rows, now), History.OrderCanceled))
    case CancelNamed(o) =>
      if o in s.rows && History.NamedCancelApplies(s.rows[o].entry.status)
      then s.(rows := History.Update(s.rows, {o}, History.OrderCanceled)) else s
  }

  function StateOver(s: State, factor: Fraction, events: seq<Event>): State
    requires Proper(factor)
  {
    if events == [] then s
    else StepState(StateOver(s, factor, events[..|events| - 1]), factor, events[|events| - 1])
  }

  /** The gateway took the money of a payment of such a price, which is worth so many cogs. */
  datatype Charge = Charge(order: OrderId, payment: PaymentId, gatewayId: GatewayId, price: Price, worth: nat)

  // The execution the event asks the gateway for: of which payment, and what came of it.
  function Asked(s: State, e: Event): Option<(OrderId, PaymentId, Execution)> {
    match e
    case Payment(Execute(o, id, m, x)) =>
      if Has(s.db, o, id) && m == PAYMENT_METHOD_PAYPAL && Payments.Payment(s.db, o, id).details.Paypal?
      then Some((o, id, x)) else None
    case ExecuteOrder(username, o, id, a) =>
      if Has(s.db, o, id) && s.db[o].username == username && Payments.Payment(s.db, o, id).details.Paypal?
      then Some((o, id, a.execution)) else None
    case _ => None
  }

  function ChargesOf(s: State, factor: Fraction, e: Event): (cs: seq<Charge>)
    requires Proper(factor)
    ensures |cs| <= 1
  {
    var asked := Asked(s, e);
    if asked.None? || !(asked.value.2.Executed? || asked.value.2.ExecutedButLost?) then []
    else
      var (o, id, _) := asked.value;
      var row := Payments.Payment(s.db, o, id);
      var cogs := CogsFor(row.price, factor);
      [Charge(o, id, row.details.gatewayId, row.price, if cogs.Some? then cogs.value else 0)]
  }

  function Charges(s: State, factor: Fraction, events: seq<Event>): seq<Charge>
    requires Proper(factor)
  {
    if events == [] then []
    else
      var before := events[..|events| - 1];
      Charges(s, factor, before) + ChargesOf(StateOver(s, factor, before), factor, events[|events| - 1])
  }

  /** The gateway's contract: it takes the money of each of its payments at most once. */
  predicate AtMostOnce(charges: seq<Charge>) {
    forall i, j | 0 <= i < j < |charges| :: charges[i].gatewayId != charges[j].gatewayId
  }

  // How many channel requests an event sends for the payment.
  function SentBy(s: State, factor: Fraction, e: Event, o: OrderId, id: PaymentId): nat
    requires Proper(factor)
  {
    if e.ExecuteOrder? && e.order == o && e.payment == id
    then |RequestsOf(s.db, factor, e.username, o, id, e.answers)| else 0
  }

  // How many a run has sent for it.
  function SentFor(s: State, factor: Fraction, events: seq<Event>, o: OrderId, id: PaymentId): nat
    requires Proper(factor)
  {
    if events == [] then 0
    else
      var before, e := events[..|events| - 1], events[|events| - 1];
      SentFor(s, factor, before, o, id) + SentBy(StateOver(s, factor, before), factor, e, o, id)
  }

  function ChargesFor(charges: seq<Charge>, o: OrderId, id: PaymentId): nat {
    if charges == [] then 0
    else
      var c := charges[|charges| - 1];
      ChargesFor(charges[..|charges| - 1], o, id) + if c.order == o && c.payment == id then 1 else 0
  }

  function TotalCogs(requests: seq<ChannelRequest>): int {
    if requests == [] then 0
    else TotalCogs(requests[..|requests| - 1]) + requests[|requests| - 1].cogs
  }

  function TotalWorth(charges: seq<Charge>): nat {
    if charges == [] then 0
    else TotalWorth(charges[..|charges| - 1]) + charges[|charges| - 1].worth
  }

  lemma AppendOne<T>(xs: seq<T>, x: T)
    ensures (xs + [x])[..|xs|] == xs && (xs + [x])[|xs|] == x && |xs + [x]| == |xs| + 1
  {
  }

  /** What a price is worth: the cogs it buys, or nothing when it buys none. */
  ghost predicate Worth(price: Price, factor: Fraction, worth: nat) {
    if worth >= 1 then Buys(price, factor, worth) else forall c: int :: !Buys(price, factor, c)
  }

  /** A sent request is paid for by the same event: the gateway has just reported the payment taken,
      and the request asks for exactly the cogs its price buys. */
  lemma RequestIsPaidFor(s: State, factor: Fraction, e: Event)
    requires Proper(factor) && e.ExecuteOrder?
    requires RequestsOf(s.db, factor, e.username, e.order, e.payment, e.answers) != []
    ensures var rs, cs := RequestsOf(s.db, factor, e.username, e.order, e.payment, e.answers), ChargesOf(s, factor, e);
            && |rs| == 1 && |cs| == 1 && cs[0].order == e.order && cs[0].payment == e.payment
            && Has(s.db, e.order, e.payment) && cs[0].price == Payments.Payment(s.db, e.order, e.payment).price
            && rs[0].cogs == cs[0].worth && Buys(cs[0].price, factor, rs[0].cogs)
  {
    var r := RequestsOf(s.db, factor, e.username, e.order, e.payment, e.answers)[0];
    RequestSentIff(s.db, factor, e.username, e.order, e.payment, e.answers, r);
    ChargedIff(s.db, e.username, e.order, e.payment, e.answers);
  }

  // Every charge has the worth of its price.
  ghost predicate ChargesAreWorth(factor: Fraction, charges: seq<Charge>) {
    forall c | c in charges :: Worth(c.price, factor, c.worth)
  }

  lemma ChargeIsWorth(s: State, factor: Fraction, e: Event)
    requires Proper(factor)
    ensures ChargesAreWorth(factor, ChargesOf(s, factor, e))
  {
    var cs := ChargesOf(s, factor, e);
    if cs != [] {
      CogsForNone(cs[0].price, factor);
      CogsForIff(cs[0].price, factor, cs[0].worth);
    }
  }

  /** Main result on amounts: over any run, whatever is retried or fails, the cogs requested never
      exceed the worth of what the gateway took, each charge being worth the half-even rounding of its
      payment's price times the factor. */
  lemma {:induction false} Conservation(s: State, factor: Fraction, events: seq<Event>)
    requires Proper(factor)
    ensures ChargesAreWorth(factor, Charges(s, factor, events))
    ensures TotalCogs(StateOver(s, factor, events).sent) <= TotalCogs(s.sent) + TotalWorth(Charges(s, factor, events))
  {
    if events != [] {
      var before, e := events[..|events| - 1], events[|events| - 1];
      Conservation(s, factor, before);
      var s1, cs := StateOver(s, factor, before), ChargesOf(StateOver(s, factor, before), factor, e);
      ChargeIsWorth(s1, factor, e);
      TotalWorthOneMore(Charges(s, factor, before), cs);
      SentGrows(s1, factor, e);
    }
  }

  lemma TotalWorthOneMore(charges: seq<Charge>, cs: seq<Charge>)
    requires |cs| <= 1
    ensures TotalWorth(charges + cs) == TotalWorth(charges) + if cs == [] then 0 else cs[0].worth
  {
    if cs == [] {
      assert charges + cs == charges;
    } else {
      AppendOne(charges, cs[0]);
      assert charges + cs == charges + [cs[0]];
    }
  }

  lemma SentGrows(s: State, factor: Fraction, e: Event)
    requires Proper(factor)
    ensures var cs := ChargesOf(s, factor, e);
            TotalCogs(StepState(s, factor, e).sent) <= TotalCogs(s.sent) + if cs == [] then 0 else cs[0].worth
  {
    if e.ExecuteOrder? && Charged(s.db, e.username, e.order, e.payment, e.answers) {
      var rs := RequestsOf(s.db, factor, e.username, e.order, e.payment, e.answers);
      if rs == [] {
        assert s.sent + rs == s.sent;
      } else {
        RequestIsPaidFor(s, factor, e);
        AppendOne(s.sent, rs[0]);
        assert s.sent + rs == s.sent + [rs[0]];
      }
    }
  }

  /** Each payment is behind at most as many requests as the gateway took its money. */
  lemma {:induction false} RequestsNeedCharges(s: State, factor: Fraction, events: seq<Event>,
                                               o: OrderId, id: PaymentId)
    requires Proper(factor)
    ensures SentFor(s, factor, events, o, id) <= ChargesFor(Charges(s, factor, events), o, id)
  {
    if events != [] {
      var before, e := events[..|events| - 1], events[|events| - 1];
      RequestsNeedCharges(s, factor, before, o, id);
      var s1 := StateOver(s, factor, before);
      SentByNeedsCharge(s1, factor, e, o, id);
      ChargesForOneMore(Charges(s, factor, before), ChargesOf(s1, factor, e), o, id);
    }
  }

  lemma SentByNeedsCharge(s: State, factor: Fraction, e: Event, o: OrderId, id: PaymentId)
    requires Proper(factor)
    ensures var cs := ChargesOf(s, factor, e);
            SentBy(s, factor, e, o, id) <= if cs != [] && cs[0].order == o && cs[0].payment == id then 1 else 0
  {
    if SentBy(s, factor, e, o, id) > 0 {
      RequestIsPaidFor(s, factor, e);
    }
  }

  lemma ChargesForOneMore(charges: seq<Charge>, cs: seq<Charge>, o: OrderId, id: PaymentId)
    requires |cs| <= 1
    ensures ChargesFor(charges + cs, o, id)
         == ChargesFor(charges, o, id) + if cs != [] && cs[0].order == o && cs[0].payment == id then 1 else 0
  {
    if cs == [] {
      assert charges + cs == charges;
    } else {
      AppendOne(charges, cs[0]);
      assert charges + cs == charges + [cs[0]];
    }
  }

  // Every charge is of a payment still stored, under the gateway's id and at the same price.
  predicate ChargesStand(db: Db<Item>, charges: seq<Charge>) {
    forall c | c in charges ::
      Has(db, c.order, c.payment) && Payments.Payment(db, c.order, c.payment).details == Paypal(c.gatewayId)
      && Payments.Payment(db, c.order, c.payment).price == c.price
  }

  lemma DetailsStay(db: Db<Item>, rs: seq<Request<Item>>, o: OrderId, id: PaymentId)
    requires UniqueIds(db) && Has(db, o, id)
    ensures UniqueIds(Over(db, rs)) && Has(Over(db, rs), o, id)
    ensures Payments.Payment(Over(db, rs), o, id).details == Payments.Payment(db, o, id).details
    ensures Payments.Payment(Over(db, rs), o, id).price == Payments.Payment(db, o, id).price
  {
    var k := Position(db[o].payments, id);
    StatusIsSettled(db, rs, o, k);
    PositionUnique(Over(db, rs)[o].payments, id, k);
  }

  // The payment requests an event may carry out.
  function RequestsBy(e: Event): seq<Request<Item>> {
    match e
    case Payment(r) => [r]
    case InitiateOrder(username, price, item, m, a) =>
      var completed := CompletedItem(item, a);
      if completed.None? then []
      else [CreateOrder(a.order, username, price, completed.value), Initiate(a.order, a.payment, price, m, a.creation)]
    case ExecuteOrder(_, o, id, a) => [Execute(o, id, PAYMENT_METHOD_PAYPAL, a.execution)]
    case _ => []
  }

  lemma OneRequest(db: Db<Item>, r: Request<Item>)
    ensures Over(db, [r]) == Step(db, r)
  {
    assert [r][..0] == [];
  }

  lemma TwoRequests(db: Db<Item>, r: Request<Item>, q: Request<Item>)
    ensures Over(db, [r, q]) == Step(Step(db, r), q)
  {
    assert [r, q][..1] == [r];
    OneRequest(db, r);
  }

  /** Every event is, for the payments' rows, either nothing or the payment requests it carries out. */
  lemma StepIsPaymentRun(s: State, factor: Fraction, e: Event)
    requires Proper(factor)
    ensures var db' := StepState(s, factor, e).db; db' == s.db || db' == Over(s.db, RequestsBy(e))
  {
    match e {
      case Payment(r) => OneRequest(s.db, r);
      case InitiateOrder(username, price, item, m, a) =>
        var completed := CompletedItem(item, a);
        if completed.Some? {
          TwoRequests(s.db, CreateOrder(a.order, username, price, completed.value),
                      Initiate(a.order, a.payment, price, m, a.creation));
        }
      case ExecuteOrder(_, o, id, a) => OneRequest(s.db, Execute(o, id, PAYMENT_METHOD_PAYPAL, a.execution));
      case _ =>
    }
  }

  lemma {:induction false} RunKeepsUniqueIds(db: Db<Item>, rs: seq<Request<Item>>)
    requires UniqueIds(db)
    ensures UniqueIds(Over(db, rs))
  {
    if rs != [] {
      RunKeepsUniqueIds(db, rs[..|rs| - 1]);
      StepKeepsUniqueIds(Over(db, rs[..|rs| - 1]), rs[|rs| - 1]);
    }
  }

  lemma ChargesStandAfter(s: State, factor: Fraction, e: Event, charges: seq<Charge>)
    requires Proper(factor) && UniqueIds(s.db) && ChargesStand(s.db, charges)
    ensures UniqueIds(StepState(s, factor, e).db) && ChargesStand(StepState(s, factor, e).db, charges)
  {
    StepIsPaymentRun(s, factor, e);
    RunKeepsUniqueIds(s.db, RequestsBy(e));
    forall c | c in charges
      ensures var db' := Over(s.db, RequestsBy(e));
              && Has(db', c.order, c.payment)
              && Payments.Payment(db', c.order, c.payment).details == Paypal(c.gatewayId)
              && Payments.Payment(db', c.order, c.payment).price == c.price
    {
      DetailsStay(s.db, RequestsBy(e), c.order, c.payment);
    }
  }

  lemma {:induction false} ChargesStandOver(s: State, factor: Fraction, events: seq<Event>)
    requires Proper(factor) && UniqueIds(s.db)
    ensures var s' := StateOver(s, factor, events);
            UniqueIds(s'.db) && ChargesStand(s'.db, Charges(s, factor, events))
  {
    if events != [] {
      var before, e := events[..|events| - 1], events[|events| - 1];
      ChargesStandOver(s, factor, before);
      var s1 := StateOver(s, factor, before);
      var all := Charges(s, factor, before) + ChargesOf(s1, factor, e);
      assert ChargesStand(s1.db, all);
      ChargesStandAfter(s1, factor, e, all);
    }
  }

  lemma {:induction false} OneChargeEach(db: Db<Item>, charges: seq<Charge>, o: OrderId, id: PaymentId)
    requires ChargesStand(db, charges) && AtMostOnce(charges)
    ensures ChargesFor(charges, o, id) <= 1
    ensures ChargesFor(charges, o, id) == 1 ==> (
              && Has(db, o, id) && Payments.Payment(db, o, id).details.Paypal?
              && exists c | c in charges :: c.gatewayId == Payments.Payment(db, o, id).details.gatewayId)
  {
    if charges != [] {
      var n := |charges| - 1;
      var before, c := charges[..n], charges[n];
      assert forall x | x in before :: x in charges;
      OneChargeEach(db, before, o, id);
      assert c in charges;
      forall x | x in before ensures x.gatewayId != c.gatewayId {
        var i :| 0 <= i < n && before[i] == x;
        assert charges[i].gatewayId != charges[n].gatewayId;
      }
    }
  }

  /** Main result on requests: if the gateway takes each payment's money at most once, then over any
      run each payment is charged at most once and triggers at most one open or fund request. */
  lemma OneRequestPerPayment(s: State, factor: Fraction, events: seq<Event>, o: OrderId, id: PaymentId)
    requires Proper(factor) && UniqueIds(s.db) && AtMostOnce(Charges(s, factor, events))
    ensures SentFor(s, factor, events, o, id) <= ChargesFor(Charges(s, factor, events), o, id) <= 1
  {
    ChargesStandOver(s, factor, events);
    RequestsNeedCharges(s, factor, events, o, id);
    OneChargeEach(StateOver(s, factor, events).db, Charges(s, factor, events), o, id);
  }

  /** The contract is needed: a payment the gateway reports as taken twice funds the channel twice,
      because neither service looks at the stored status first. */
  lemma RepeatedExecutionFundsTwice(s: State, factor: Fraction, o: OrderId, id: PaymentId, a: Answers, c: int)
    requires Proper(factor) && Has(s.db, o, id) && s.db[o].item.orderType.FundChannel?
    requires Payments.Payment(s.db, o, id).details.Paypal? && a.execution == Executed
    requires Buys(Payments.Payment(s.db, o, id).price, factor, c)
    ensures var e, item := ExecuteOrder(s.db[o].username, o, id, a), s.db[o].item;
            var fund := Fund(o, item.walletAddress, item.recipient, item.channelId, c);
            StateOver(s, factor, [e, e]).sent == s.sent + [fund] + [fund]
  {
    var e := ExecuteOrder(s.db[o].username, o, id, a);
    CogsForIff(Payments.Payment(s.db, o, id).price, factor, c);
    assert [e, e][..1] == [e] && [e][..0] == [];
    ExecutableAgain(s, factor, o, id, a);
    var s1 := StepState(s, factor, e);
    assert StateOver(s, factor, []) == s;
    assert StateOver(s, factor, [e]) == s1;
    assert StateOver(s, factor, [e, e]) == StepState(s1, factor, e);
  }

  // A reported execution leaves the order such that the same execution sends the same again.
  lemma ExecutableAgain(s: State, factor: Fraction, o: OrderId, id: PaymentId, a: Answers)
    requires Proper(factor) && Has(s.db, o, id) && Charged(s.db, s.db[o].username, o, id, a)
    ensures var username, s1 := s.db[o].username, OrderSaga.ExecuteOrder(s, factor, s.db[o].username, o, id, a);
            && s1.sent == s.sent + RequestsOf(s.db, factor, username, o, id, a)
            && Charged(s1.db, username, o, id, a)
            && RequestsOf(s1.db, factor, username, o, id, a) == RequestsOf(s.db, factor, username, o, id, a)
  {
    PositionAfterUpdate(s.db[o].payments, Position(s.db[o].payments, id), Success, id);
  }

  // ---------- what the history says ----------

  // Orders are created by the order service only.
  predicate OnlyInitiated(events: seq<Event>) {
    forall i | 0 <= i < |events| :: events[i].Payment? ==> !events[i].request.CreateOrder?
  }

  // A status the history can show for an order the service has initiated.
  predicate Unprocessed(status: History.OrderStatus) {
    status == History.PaymentInitiated || status == History.PaymentInitiationFailed || status == History.OrderCanceled
  }

  // Every stored order has its history row, with such a status.
  predicate HistoryUnprocessed(s: State) {
    s.db.Keys <= s.rows.Keys && forall o | o in s.rows :: Unprocessed(s.rows[o].entry.status)
  }

  lemma StepKeepsUnprocessed(s: State, factor: Fraction, e: Event)
    requires Proper(factor) && HistoryUnprocessed(s) && (e.Payment? ==> !e.request.CreateOrder?)
    ensures HistoryUnprocessed(StepState(s, factor, e))
  {
  }

  /** Main result on the history: while all orders come from the order service, its history never
      says of any order that it was processed or that its processing failed: whatever has been paid
      and funded, the status stays that of the initiation, or becomes ORDER_CANCELED. */
  lemma {:induction false} HistoryNeverSaysProcessed(factor: Fraction, events: seq<Event>)
    requires Proper(factor) && OnlyInitiated(events)
    ensures HistoryUnprocessed(StateOver(State(map[], map[], []), factor, events))
  {
    if events != [] {
      var before := events[..|events| - 1];
      HistoryNeverSaysProcessed(factor, before);
      StepKeepsUnprocessed(StateOver(State(map[], map[], []), factor, before), factor, events[|events| - 1]);
    }
  }

  // The state after initiating one order to fund a channel.
  function Initiated(username: string, price: Price, c: Channel, o: OrderId, id: PaymentId, g: GatewayId, t: int)
    : State
  {
    State(map[o := OrderRow(username, price, Item(FundChannel, c.recipient, c.id, c.wallet),
                            [PaymentRow(id, price, Pending, Paypal(g))])],
          map[o := History.Row(History.Entry(username, "FUND_CHANNEL", History.PaymentInitiated, id), t, t)], [])
  }

  /** From one end to the other: an order is initiated, its payment taken and its channel funded, and
      sixteen minutes after its initiation the sweep cancels it all the same. */
  lemma FundedOrderIsCanceled(factor: Fraction, username: string, price: Price, item: Item, c: Channel,
                              o: OrderId, id: PaymentId, g: GatewayId, t: int, a: Answers, cogs: int)
    requires Proper(factor) && Buys(price, factor, cogs) && item.orderType.FundChannel?
    requires a.execution == Executed && a.accepted
    ensures var init := InitiateOrder(username, price, item, "paypal",
                                      InitiationAnswers(o, id, None, Some(c), Created(g), t));
            var events := [init, ExecuteOrder(username, o, id, a), CancelStale(t + 960)];
            var s := StateOver(State(map[], map[], []), factor, events);
            && s.sent == [Fund(o, c.wallet, c.recipient, c.id, cogs)]
            && Has(s.db, o, id) && Payments.Payment(s.db, o, id).status == Success
            && o in s.rows && s.rows[o].entry.status == History.OrderCanceled
  {
    CogsForIff(price, factor, cogs);
    var init := InitiateOrder(username, price, item, PAYMENT_METHOD_PAYPAL,
                              InitiationAnswers(o, id, None, Some(c), Created(g), t));
    var exec, cancel := ExecuteOrder(username, o, id, a), CancelStale(t + 960);
    var s0, s1 := State(map[], map[], []), Initiated(username, price, c, o, id, g, t);
    assert [init, exec, cancel][..2] == [init, exec] && [init, exec][..1] == [init] && [init][..0] == [];
    InitiationGives(factor, username, price, item, c, o, id, g, t);
    assert StateOver(s0, factor, []) == s0;
    assert StateOver(s0, factor, [init]) == s1;
    var s2 := StepState(s1, factor, exec);
    assert StateOver(s0, factor, [init, exec]) == s2;
    var s3 := StepState(s2, factor, cancel);
    assert StateOver(s0, factor, [init, exec, cancel]) == s3;
    PositionAfterUpdate(s1.db[o].payments, 0, Success, id);
  }

  lemma InitiationGives(factor: Fraction, username: string, price: Price, item: Item, c: Channel,
                        o: OrderId, id: PaymentId, g: GatewayId, t: int)
    requires Proper(factor) && CogsFor(price, factor).Some? && item.orderType.FundChannel?
    ensures StepState(State(map[], map[], []), factor,
              InitiateOrder(username, price, item, PAYMENT_METHOD_PAYPAL,
                            InitiationAnswers(o, id, None, Some(c), Created(g), t)))
         == Initiated(username, price, c, o, id, g, t)
  {
    var ordered: Db<Item> := map[o := OrderRow(username, price, Item(FundChannel, c.recipient, c.id, c.wallet), [])];
    assert !IdTaken(ordered, id);
    assert [] + [PaymentRow(id, price, Pending, Paypal(g))] == [PaymentRow(id, price, Pending, Paypal(g))];
  }
}

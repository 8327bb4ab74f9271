/** What happens to a payment's stored status over any run of requests. */
module PaymentRuns {
  import opened Payments

  datatype Request<Item> =
    | CreateOrder(order: OrderId, username: string, price: Price, item: Item)
    | Initiate(order: OrderId, payment: PaymentId, price: Price, paymentMethod: string, creation: Creation)
    | Execute(order: OrderId, payment: PaymentId, paymentMethod: string, execution: Execution)
    | Cancel(order: OrderId, payment: PaymentId)

  function Step<Item>(db: Db<Item>, r: Request<Item>): Db<Item> {
    match r
    case CreateOrder(o, username, price, item) =>
      if o in db then db else db[o := OrderRow(username, price, item, [])]
    case Initiate(o, id, price, m, creation) =>
      if InitiationSucceeds(db, o, id, m, creation)
      then WithPayment(db, o, PaymentRow(id, price, Pending, Paypal(creation.gatewayId)))
      else db
    case Execute(o, id, m, execution) =>
      if ExecutionSucceeds(db, o, id, m, execution) then WithStatus(db, o, id, Success) else db
    case Cancel(o, id) =>
      if CancellationSucceeds(db, o, id) then WithStatus(db, o, id, Failed) else db
  }

  // Each request, as the manager carries it out, is one step.
  method Handle<Item>(manager: OrderManager<Item>, r: Request<Item>) returns (ok: bool)
    modifies manager
    ensures manager.db == Step(old(manager.db), r)
  {
    if r.Initiate? {
      IdTakenIff(manager.db, r.payment);
    }
    match r {
      case CreateOrder(o, username, price, item) => ok := manager.CreateOrder(o, username, price, item);
      case Initiate(o, id, price, m, creation) => ok := manager.InitiatePaymentAgainstOrder(o, id, price, m, creation);
      case Execute(o, id, m, execution) => ok := manager.ExecutePaymentAgainstOrder(o, id, m, execution);
      case Cancel(o, id) => ok := manager.CancelPaymentAgainstOrder(o, id);
    }
  }

  function Over<Item>(db: Db<Item>, rs: seq<Request<Item>>): Db<Item> {
    if rs == [] then db else Step(Over(db, rs[..|rs| - 1]), rs[|rs| - 1])
  }

  // ---------- ids ----------

  /** The primary key: no payment id occurs twice, in one order or in two. */
  predicate UniqueIds<Item>(db: Db<Item>) {
    forall o, i, q, j | o in db && 0 <= i < |db[o].payments| && q in db && 0 <= j < |db[q].payments|
      && db[o].payments[i].id == db[q].payments[j].id :: o == q && i == j
  }

  lemma NotTaken<Item>(db: Db<Item>, id: PaymentId, o: OrderId, i: nat)
    requires !IdTaken(db, id) && o in db && i < |db[o].payments|
    ensures db[o].payments[i].id != id
  {
    assert !Has(db, o, id);
  }

  // The same rows under the same ids.
  predicate SameIds<Item>(db: Db<Item>, db': Db<Item>) {
    && db.Keys == db'.Keys
    && (forall o | o in db :: |db[o].payments| == |db'[o].payments|)
    && (forall o, i | o in db && 0 <= i < |db[o].payments| :: db[o].payments[i].id == db'[o].payments[i].id)
  }

  lemma SameIdsKeepUnique<Item>(db: Db<Item>, db': Db<Item>)
    requires SameIds(db, db') && UniqueIds(db)
    ensures UniqueIds(db')
  {
  }

  lemma RowOfLonger<Item>(db: Db<Item>, o: OrderId, row: PaymentRow, q: OrderId, i: nat)
    requires o in db && q in db && i < |WithPayment(db, o, row)[q].payments|
    ensures if q == o && i == |db[o].payments| then WithPayment(db, o, row)[q].payments[i] == row
            else i < |db[q].payments| && WithPayment(db, o, row)[q].payments[i] == db[q].payments[i]
  {
  }

  lemma NewIdKeepsUnique<Item>(db: Db<Item>, o: OrderId, row: PaymentRow)
    requires UniqueIds(db) && o in db && !IdTaken(db, row.id)
    ensures UniqueIds(WithPayment(db, o, row))
  {
    forall q, i | q in db && 0 <= i < |db[q].payments| ensures db[q].payments[i].id != row.id {
      NotTaken(db, row.id, q, i);
    }
    var db' := WithPayment(db, o, row);
    forall q, i, p, j | q in db' && 0 <= i < |db'[q].payments| && p in db' && 0 <= j < |db'[p].payments|
        && db'[q].payments[i].id == db'[p].payments[j].id
      ensures q == p && i == j
    {
      RowOfLonger(db, o, row, q, i);
      RowOfLonger(db, o, row, p, j);
    }
  }

  lemma StepKeepsUniqueIds<Item>(db: Db<Item>, r: Request<Item>)
    requires UniqueIds(db)
    ensures UniqueIds(Step(db, r))
  {
    match r {
      case CreateOrder(o, username, price, item) =>
      case Initiate(o, id, price, m, creation) =>
        if InitiationSucceeds(db, o, id, m, creation) {
          NewIdKeepsUnique(db, o, PaymentRow(id, price, Pending, Paypal(creation.gatewayId)));
        }
      case Execute(o, id, m, execution) => SameIdsKeepUnique(db, Step(db, r));
      case Cancel(o, id) => SameIdsKeepUnique(db, Step(db, r));
    }
  }

  // ---------- one step ----------

  // Does the request name the payment?
  predicate Names<Item>(r: Request<Item>, o: OrderId, id: PaymentId) {
    (r.Execute? || r.Cancel?) && r.order == o && r.payment == id
  }

  predicate Charges<Item>(r: Request<Item>, o: OrderId, row: PaymentRow) {
    r == Execute(o, row.id, "paypal", Executed) && row.details.Paypal?
  }

  /** What a request makes of a status: success whenever the gateway reports the money taken, and
      failure only by canceling a pending payment. */
  function StatusAfter<Item>(status: PaymentStatus, r: Request<Item>, o: OrderId, row: PaymentRow): PaymentStatus {
    if Charges(r, o, row) then Success
    else if r == Cancel(o, row.id) && status == Pending then Failed
    else status
  }

  lemma RowAfterStatus<Item>(db: Db<Item>, o: OrderId, id: PaymentId, status: PaymentStatus, q: OrderId, i: nat)
    requires UniqueIds(db) && Has(db, o, id) && q in db && i < |db[q].payments|
    ensures var db', row := WithStatus(db, o, id, status), db[q].payments[i];
            && q in db' && i < |db'[q].payments|
            && db'[q].payments[i] == if q == o && row.id == id then row.(status := status) else row
    ensures q == o && db[q].payments[i].id == id ==> Payment(db, o, id) == db[q].payments[i]
  {
    PositionUnique(db[q].payments, db[q].payments[i].id, i);
  }

  // The stored row keeps its place, and has the status a request makes of it.
  predicate RowMoves<Item>(db: Db<Item>, r: Request<Item>, o: OrderId, i: nat)
    requires o in db && i < |db[o].payments|
  {
    var db', row := Step(db, r), db[o].payments[i];
    && o in db' && i < |db'[o].payments|
    && db'[o].payments[i] == row.(status := StatusAfter(row.status, r, o, row))
  }

  lemma RowAfterExecute<Item>(db: Db<Item>, r: Request<Item>, o: OrderId, i: nat)
    requires UniqueIds(db) && o in db && i < |db[o].payments| && r.Execute?
    ensures RowMoves(db, r, o, i)
  {
    if Has(db, r.order, r.payment) {
      RowAfterStatus(db, r.order, r.payment, Success, o, i);
    }
  }

  lemma RowAfterCancel<Item>(db: Db<Item>, r: Request<Item>, o: OrderId, i: nat)
    requires UniqueIds(db) && o in db && i < |db[o].payments| && r.Cancel?
    ensures RowMoves(db, r, o, i)
  {
    if Has(db, r.order, r.payment) {
      RowAfterStatus(db, r.order, r.payment, Failed, o, i);
    }
  }

  /** Main result on one request: every stored payment stays where it is, with its id, price and
      details; only its status moves, and only by a request that names it. */
  lemma PaymentAfterStep<Item>(db: Db<Item>, r: Request<Item>, o: OrderId, i: nat)
    requires UniqueIds(db) && o in db && i < |db[o].payments|
    ensures RowMoves(db, r, o, i)
    ensures !Names(r, o, db[o].payments[i].id) ==> Step(db, r)[o].payments[i] == db[o].payments[i]
  {
    if r.Execute? {
      RowAfterExecute(db, r, o, i);
    } else if r.Cancel? {
      RowAfterCancel(db, r, o, i);
    }
  }

  // ---------- runs ----------

  predicate EverCharged<Item>(rs: seq<Request<Item>>, o: OrderId, row: PaymentRow) {
    exists k :: 0 <= k < |rs| && Charges(rs[k], o, row)
  }

  predicate EverCanceled<Item>(rs: seq<Request<Item>>, o: OrderId, id: PaymentId) {
    exists k :: 0 <= k < |rs| && rs[k] == Cancel(o, id)
  }

  /** Main result over runs: the stored status is settled by which requests occurred, in whatever
      order: paid if the gateway ever reported the money taken, else canceled if a pending payment
      was ever canceled. So a stored SUCCESS never changes, refused executions leave no trace, and
      FAILED is not final. */
  lemma {:induction false} StatusIsSettled<Item>(db: Db<Item>, rs: seq<Request<Item>>, o: OrderId, i: nat)
    requires UniqueIds(db) && o in db && i < |db[o].payments|
    ensures UniqueIds(Over(db, rs)) && o in Over(db, rs) && i < |Over(db, rs)[o].payments|
    ensures var before, after := db[o].payments[i], Over(db, rs)[o].payments[i];
            && after == before.(status := after.status)
            && after.status == if before.status == Success || EverCharged(rs, o, before) then Success
                               else if before.status == Failed || EverCanceled(rs, o, before.id) then Failed
                               else Pending
  {
    if rs != [] {
      var n := |rs| - 1;
      var earlier, last := rs[..n], rs[n];
      StatusIsSettled(db, earlier, o, i);
      StepKeepsUniqueIds(Over(db, earlier), last);
      PaymentAfterStep(Over(db, earlier), last, o, i);
      var before := db[o].payments[i];
      OneMore(earlier, last, o, before);
      assert rs == earlier + [last];
    }
  }

  lemma OneMore<Item>(rs: seq<Request<Item>>, r: Request<Item>, o: OrderId, row: PaymentRow)
    ensures EverCharged(rs + [r], o, row) <==> EverCharged(rs, o, row) || Charges(r, o, row)
    ensures EverCanceled(rs + [r], o, row.id) <==> EverCanceled(rs, o, row.id) || r == Cancel(o, row.id)
  {
    var all := rs + [r];
    assert all[|rs|] == r;
    if k :| 0 <= k < |rs| && Charges(rs[k], o, row) {
      assert Charges(all[k], o, row);
    }
    if k :| 0 <= k < |rs| && rs[k] == Cancel(o, row.id) {
      assert all[k] == Cancel(o, row.id);
    }
  }

  /** A canceled payment can still be paid: afterwards it counts as paid. */
  lemma CanceledPaymentRevives<Item>(db: Db<Item>, o: OrderId, i: nat)
    requires UniqueIds(db) && o in db && i < |db[o].payments|
    requires db[o].payments[i].status == Pending && db[o].payments[i].details.Paypal?
    ensures var id := db[o].payments[i].id;
            var canceled := Step(db, Cancel(o, id));
            && canceled[o].payments[i].status == Failed
            && Step(canceled, Execute(o, id, "paypal", Executed))[o].payments[i].status == Success
  {
    var id := db[o].payments[i].id;
    PaymentAfterStep(db, Cancel(o, id), o, i);
    StepKeepsUniqueIds(db, Cancel(o, id));
    PaymentAfterStep(Step(db, Cancel(o, id)), Execute(o, id, PAYMENT_METHOD_PAYPAL, Executed), o, i);
  }
}

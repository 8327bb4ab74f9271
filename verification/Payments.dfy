/** Payments of an order: domain objects, repository rows and the manager's requests
    (payments/domain/order.py, payments/domain/paypal_payment.py,
    payments/application/dapp_order_manager.py, payments/infrastructure/order_repositroy.py). */
module Payments {
  import opened Money

  type OrderId = string
  type PaymentId = string
  type GatewayId = string

  const PAYMENT_METHOD_PAYPAL := "paypal"

  datatype PaymentStatus = Pending | Success | Failed
  datatype Price = Price(amount: Fraction, currency: string)

  /** The gateway's id of a PayPal payment; a stored payment may also be of no known method. */
  datatype PaymentDetails = Paypal(gatewayId: GatewayId) | Unknown

  datatype PaymentRow = PaymentRow(id: PaymentId, price: Price, status: PaymentStatus, details: PaymentDetails)

  /** An order's row with its payments' rows, in the order they are read. */
  datatype OrderRow<Item> = OrderRow(username: string, price: Price, item: Item, payments: seq<PaymentRow>)

  type Db<Item> = map<OrderId, OrderRow<Item>>

  /** What the gateway does when asked to create a payment. */
  datatype Creation = Created(gatewayId: GatewayId) | CreationFailed

  /** What it does when asked to execute one; when the answer is lost the caller sees an exception,
      whether or not the money moved. */
  datatype Execution = Executed | ExecutedButLost | Refused | Unreachable

  datatype Result<T> = Returned(value: T) | Raised

  // ---------- specification ----------

  // The first row with the id, or the number of rows.
  function Position(rows: seq<PaymentRow>, id: PaymentId): (k: nat)
    ensures k <= |rows| && (k < |rows| ==> rows[k].id == id)
    ensures forall j | 0 <= j < k :: rows[j].id != id
  {
    if rows == [] then 0
    else if rows[0].id == id then 0
    else
      var k := Position(rows[1..], id);
      assert forall j | 0 < j <= k :: j < |rows| ==> rows[j] == rows[1..][j - 1];
      k + 1
  }

  function StatusAfterExecution(row: PaymentRow, execution: Execution): PaymentStatus {
    if row.details.Unknown? then row.status
    else match execution
      case Executed => Success
      case Refused => if row.status == Pending then Failed else row.status
      case _ => row.status
  }

  predicate Has<Item>(db: Db<Item>, o: OrderId, id: PaymentId) {
    o in db && Position(db[o].payments, id) < |db[o].payments|
  }

  function Payment<Item>(db: Db<Item>, o: OrderId, id: PaymentId): PaymentRow
    requires Has(db, o, id)
  {
    db[o].payments[Position(db[o].payments, id)]
  }

  function WithStatus<Item>(db: Db<Item>, o: OrderId, id: PaymentId, status: PaymentStatus): Db<Item>
    requires Has(db, o, id)
  {
    var rows := db[o].payments;
    var k := Position(rows, id);
    db[o := db[o].(payments := rows[k := rows[k].(status := status)])]
  }

  predicate ExecutionSucceeds<Item>(db: Db<Item>, o: OrderId, id: PaymentId, paymentMethod: string,
                                    execution: Execution) {
    && Has(db, o, id) && paymentMethod == PAYMENT_METHOD_PAYPAL
    && Payment(db, o, id).details.Paypal? && execution == Executed
  }

  predicate CancellationSucceeds<Item>(db: Db<Item>, o: OrderId, id: PaymentId) {
    Has(db, o, id) && Payment(db, o, id).status == Pending
  }

  // The payment id is the primary key of its table.
  predicate IdTaken<Item>(db: Db<Item>, id: PaymentId) {
    exists o | o in db :: Has(db, o, id)
  }

  predicate InitiationSucceeds<Item>(db: Db<Item>, o: OrderId, id: PaymentId, paymentMethod: string,
                                     creation: Creation) {
    o in db && paymentMethod == PAYMENT_METHOD_PAYPAL && creation.Created? && !IdTaken(db, id)
  }

  function WithPayment<Item>(db: Db<Item>, o: OrderId, row: PaymentRow): Db<Item>
    requires o in db
  {
    db[o := db[o].(payments := db[o].payments + [row])]
  }

  // ---------- domain objects ----------

  class PaymentObject {
    const id: PaymentId
    const price: Price
    const details: PaymentDetails
    var status: PaymentStatus

    constructor (row: PaymentRow)
      ensures Value() == row
    {
      id, price, details, status := row.id, row.price, row.details, row.status;
    }

    function Value(): PaymentRow
      reads this
    {
      PaymentRow(id, price, status, details)
    }

    method ExecuteTransaction(execution: Execution) returns (result: Result<bool>)
      modifies this
      ensures Value() == old(Value()).(status :=
                if details.Paypal? && execution == Executed then Success
                else if details.Paypal? && execution == Refused && old(status) == Pending then Failed
                else old(status))
      ensures result == if details.Unknown? then Returned(false)
                        else if execution == Executed then Returned(true)
                        else if execution == Refused then Returned(false)
                        else Raised
    {
      if details.Unknown? {
        return Returned(false);
      }
      match execution {
        case Executed =>
          status := Success;
          return Returned(true);
        case Refused =>
          if status == Pending {
            status := Failed;
          }
          return Returned(false);
        case ExecutedButLost => return Raised;
        case Unreachable => return Raised;
      }
    }

    method SetPaymentStatus(status: PaymentStatus)
      modifies this
      ensures Value() == old(Value()).(status := status)
    {
      this.status := status;
    }
  }

  class Order {
    const id: OrderId
    var payments: seq<PaymentObject>

    ghost predicate Valid()
      reads this
    {
      forall i, j | 0 <= i < j < |payments| :: payments[i] != payments[j]
    }

    ghost function Values(): seq<PaymentRow>
      reads this, payments
    {
      seq(|payments|, i requires 0 <= i < |payments| reads this, payments => payments[i].Value())
    }

    constructor (id: OrderId)
      ensures this.id == id && payments == [] && Valid()
    {
      this.id, payments := id, [];
    }

    // The factory's loop over the rows read.
    constructor FromRows(id: OrderId, rows: seq<PaymentRow>)
      ensures this.id == id && Valid() && Values() == rows && fresh(payments)
    {
      this.id, payments := id, [];
      new;
      var i := 0;
      while i < |rows|
        invariant 0 <= i == |payments| <= |rows| && Valid() && fresh(payments)
        invariant forall j | 0 <= j < i :: payments[j].Value() == rows[j]
      {
        var p := new PaymentObject(rows[i]);
        payments := payments + [p];
        i := i + 1;
      }
    }

    method GetPayment(id: PaymentId) returns (p: PaymentObject?)
      requires Valid()
      ensures var k := Position(Values(), id); p == if k < |payments| then payments[k] else null
    {
      var i := 0;
      while i < |payments|
        invariant 0 <= i <= |payments|
        invariant forall j | 0 <= j < i :: payments[j].id != id
      {
        if payments[i].id == id {
          assert Values()[i].id == id;
          return payments[i];
        }
        i := i + 1;
      }
      return null;
    }

    method CreatePayment(id: PaymentId, price: Price, paymentMethod: string, creation: Creation)
      returns (result: Result<PaymentObject>)
      requires Valid()
      modifies this
      ensures Valid() && result.Returned? == (paymentMethod == "paypal" && creation.Created?)
      ensures result.Returned? ==>
                fresh(result.value)
                && result.value.Value() == PaymentRow(id, price, Pending, Paypal(creation.gatewayId))
                && payments == old(payments) + [result.value]
      ensures result.Raised? ==> payments == old(payments)
    {
      if paymentMethod != PAYMENT_METHOD_PAYPAL || creation.CreationFailed? {
        return Raised;
      }
      var payment := new PaymentObject(PaymentRow(id, price, Pending, Paypal(creation.gatewayId)));
      payments := payments + [payment];
      return Returned(payment);
    }

    method ExecutePayment(id: PaymentId, paymentMethod: string, execution: Execution)
      returns (result: Result<PaymentObject>)
      requires Valid()
      modifies payments
      ensures var rows := old(Values()); var k := Position(rows, id);
              result == if paymentMethod == "paypal" && k < |rows| && rows[k].details.Paypal? && execution == Executed
                        then Returned(payments[k]) else Raised
      ensures var rows := old(Values()); var k := Position(rows, id);
              Values() == if paymentMethod == "paypal" && k < |rows|
                          then rows[k := rows[k].(status := StatusAfterExecution(rows[k], execution))] else rows
    {
      if paymentMethod != PAYMENT_METHOD_PAYPAL {
        return Raised;
      }
      var payment := GetPayment(id);
      if payment == null {
        return Raised;
      }
      var done := payment.ExecuteTransaction(execution);
      if done != Returned(true) {
        return Raised;
      }
      return Returned(payment);
    }

    method CancelPayment(id: PaymentId) returns (ok: bool)
      requires Valid()
      modifies payments
      ensures var rows := old(Values()); var k := Position(rows, id);
              && ok == (k < |rows| && rows[k].status == Pending)
              && Values() == if ok then rows[k := rows[k].(status := Failed)] else rows
    {
      var payment := GetPayment(id);
      if payment == null {
        return false;
      }
      if payment.status == Success {
        return false;
      } else if payment.status == Failed {
        return false;
      }
      payment.SetPaymentStatus(Failed);
      return true;
    }
  }

  // ---------- the manager ----------

  class OrderManager<Item> {
    var db: Db<Item>

    constructor ()
      ensures db == map[]
    {
      db := map[];
    }

    method CreateOrder(o: OrderId, username: string, price: Price, item: Item) returns (ok: bool)
      modifies this
      ensures ok == (o !in old(db))
      ensures db == if ok then old(db)[o := OrderRow(username, price, item, [])] else old(db)
    {
      ok := o !in db;
      if ok {
        db := db[o := OrderRow(username, price, item, [])];
      }
    }

    method PersistPayment(order: Order, id: PaymentId) returns (ok: bool)
      requires order.Valid() && order.id in db
      modifies this
      ensures var k := Position(order.Values(), id);
              && ok == (k < |order.payments| && NoneHas(old(db), id))
              && db == if ok then WithPayment(old(db), order.id, order.Values()[k]) else old(db)
    {
      IdTakenIff(db, id);
      var payment := order.GetPayment(id);
      if payment == null || IdTaken(db, id) {
        return false;
      }
      var row := db[order.id];
      db := db[order.id := row.(payments := row.payments + [payment.Value()])];
      return true;
    }

    /** The row's loop stops at the first match. */
    method UpdatePaymentStatus(order: Order, id: PaymentId) returns (ok: bool)
      requires order.Valid() && order.id in db
      modifies this
      ensures var k := Position(order.Values(), id);
              && ok == (k < |order.payments|)
              && db == if ok && Has(old(db), order.id, id)
                       then WithStatus(old(db), order.id, id, order.Values()[k].status) else old(db)
    {
      var payment := order.GetPayment(id);
      if payment == null {
        return false;
      }
      var rows := db[order.id].payments;
      var i := 0;
      while i < |rows|
        invariant 0 <= i <= |rows| && db == old(db)
        invariant forall j | 0 <= j < i :: rows[j].id != id
      {
        if rows[i].id == payment.id {
          db := db[order.id := db[order.id].(payments := rows[i := rows[i].(status := payment.status)])];
          break;
        }
        i := i + 1;
      }
      return true;
    }

    method InitiatePaymentAgainstOrder(o: OrderId, id: PaymentId, price: Price, paymentMethod: string,
                                       creation: Creation)
      returns (ok: bool)
      modifies this
      ensures ok == (o in old(db) && paymentMethod == "paypal" && creation.Created? && NoneHas(old(db), id))
      ensures db == if !ok then old(db)
                    else old(db)[o := old(db)[o].(payments := old(db)[o].payments +
                                 [PaymentRow(id, price, Pending, Paypal(creation.gatewayId))])]
    {
      if o !in db {
        return false;
      }
      var order := new Order.FromRows(o, db[o].payments);
      var created := order.CreatePayment(id, price, paymentMethod, creation);
      if created.Raised? {
        return false;
      }
      ghost var rows := old(db)[o].payments;
      assert order.Values() == rows + [created.value.Value()];
      PositionInLonger(rows, created.value.Value(), id);
      ok := PersistPayment(order, created.value.id);
    }

    method ExecutePaymentAgainstOrder(o: OrderId, id: PaymentId, paymentMethod: string, execution: Execution)
      returns (ok: bool)
      modifies this
      ensures ok == (paymentMethod == "paypal" && execution == Executed && o in old(db)
                     && var rows := old(db)[o].payments; var k := Position(rows, id);
                        k < |rows| && rows[k].details.Paypal?)
      ensures db == if !ok then old(db)
                    else var rows := old(db)[o].payments; var k := Position(rows, id);
                         old(db)[o := old(db)[o].(payments := rows[k := rows[k].(status := Success)])]
    {
      if o !in db {
        return false;
      }
      var order := new Order.FromRows(o, db[o].payments);
      var payment := order.ExecutePayment(id, paymentMethod, execution);
      if payment.Raised? {
        return false;
      }
      ghost var rows := db[o].payments;
      ghost var k := Position(rows, id);
      PositionAfterUpdate(rows, k, Success, id);
      ok := UpdatePaymentStatus(order, payment.value.id);
    }

    method CancelPaymentAgainstOrder(o: OrderId, id: PaymentId) returns (ok: bool)
      modifies this
      ensures ok == (o in old(db)
                     && var rows := old(db)[o].payments; var k := Position(rows, id);
                        k < |rows| && rows[k].status == Pending)
      ensures db == if !ok then old(db)
                    else var rows := old(db)[o].payments; var k := Position(rows, id);
                         old(db)[o := old(db)[o].(payments := rows[k := rows[k].(status := Failed)])]
    {
      if o !in db {
        return false;
      }
      var order := new Order.FromRows(o, db[o].payments);
      ok := order.CancelPayment(id);
      if ok {
        PositionAfterUpdate(db[o].payments, Position(db[o].payments, id), Failed, id);
        ok := UpdatePaymentStatus(order, id);
      }
    }
  }

  lemma {:induction false} PositionUnique(rows: seq<PaymentRow>, id: PaymentId, k: nat)
    requires k <= |rows| && (k < |rows| ==> rows[k].id == id) && forall j | 0 <= j < k :: rows[j].id != id
    ensures Position(rows, id) == k
  {
  }

  // No stored payment, of whatever order, has the id.
  ghost predicate NoneHas<Item>(db: Db<Item>, id: PaymentId) {
    forall o, i | o in db && 0 <= i < |db[o].payments| :: db[o].payments[i].id != id
  }

  lemma IdTakenIff<Item>(db: Db<Item>, id: PaymentId)
    ensures IdTaken(db, id) <==> !NoneHas(db, id)
  {
    if o, i :| o in db && 0 <= i < |db[o].payments| && db[o].payments[i].id == id {
      assert Has(db, o, id);
    }
  }

  lemma PositionAfterUpdate(rows: seq<PaymentRow>, k: nat, status: PaymentStatus, id: PaymentId)
    requires k < |rows|
    ensures Position(rows[k := rows[k].(status := status)], id) == Position(rows, id)
  {
    PositionUnique(rows[k := rows[k].(status := status)], id, Position(rows, id));
  }

  lemma PositionInLonger(rows: seq<PaymentRow>, row: PaymentRow, id: PaymentId)
    ensures Position(rows + [row], id) ==
            if Position(rows, id) < |rows| then Position(rows, id)
            else if row.id == id then |rows| else |rows| + 1
  {
    PositionUnique(rows + [row], id, if Position(rows, id) < |rows| then Position(rows, id)
                                     else if row.id == id then |rows| else |rows| + 1);
  }
}

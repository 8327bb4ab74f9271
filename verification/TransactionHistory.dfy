/** The history of payments and orders (orchestrator/dao/transaction_history_dao.py) and the
    cancellation of stale orders (orchestrator/services/order_service.py). */
module TransactionHistory {
  import opened Wrappers

  type OrderId = string

  datatype OrderStatus =
    | PaymentInitiated | PaymentInitiationFailed | PaymentExecuted | PaymentExecutionFailed
    | OrderProcessed | OrderProcessingFailed | OrderCanceled

  /** What a request writes; `payment` stands for the payment's id, method, raw data and
      transaction hash, which are always written together. */
  datatype Entry = Entry(username: string, orderType: string, status: OrderStatus, payment: string)

  datatype Row = Row(entry: Entry, created: int, updated: int)

  // The table; the order's id is its unique key. Times are in seconds.
  type Rows = map<OrderId, Row>

  const ORDER_EXPIRATION_THRESHOLD_IN_MINUTES := 15

  predicate Cancellable(status: OrderStatus) {
    status == PaymentInitiated || status == PaymentInitiationFailed || status == PaymentExecutionFailed
  }

  predicate Expired(row: Row, now: int) {
    (now - row.created) / 60 > ORDER_EXPIRATION_THRESHOLD_IN_MINUTES
  }

  // ---------- specification ----------

  function Insert(rows: Rows, o: OrderId, entry: Entry, now: int): Rows {
    if o in rows
    then rows[o := rows[o].(entry := rows[o].entry.(payment := entry.payment), updated := now)]
    else rows[o := Row(entry, now, now)]
  }

  function Selected(rows: Rows, now: int): set<OrderId> {
    set o | o in rows && Cancellable(rows[o].entry.status) && Expired(rows[o], now)
  }

  function WithStatus(row: Row, status: OrderStatus): Row {
    row.(entry := row.entry.(status := status))
  }

  function Update(rows: Rows, ids: set<OrderId>, status: OrderStatus): Rows {
    map o | o in rows :: if o in ids && Cancellable(rows[o].entry.status) then WithStatus(rows[o], status) else rows[o]
  }

  // A named order is canceled only from these two states: the third one listed in the code is
  // compared as an enumeration member with a string, so it never matches.
  predicate NamedCancelApplies(status: OrderStatus) {
    status == PaymentInitiated || status == PaymentInitiationFailed
  }

  // Sixteen minutes after its creation a row counts as expired: whole minutes are compared.
  lemma ExpiredIff(row: Row, now: int)
    ensures Expired(row, now) <==> now - row.created >= 960
  {
  }

  // What a sweep cancels: a row of sixteen minutes or more, unless it is executed, processed or canceled.
  predicate Stale(row: Row, now: int) {
    && now - row.created >= 960
    && row.entry.status in {PaymentInitiated, PaymentInitiationFailed, PaymentExecutionFailed}
  }

  lemma SelectedIff(rows: Rows, now: int, o: OrderId)
    ensures o in Selected(rows, now) <==> o in rows && Stale(rows[o], now)
  {
  }

  // ---------- the code ----------

  datatype CancelAnswer = AlreadyCanceled | Canceled | UnableToCancel | NoSuchOrder

  class TransactionHistoryDAO {
    var rows: Rows

    constructor ()
      ensures rows == map[]
    {
      rows := map[];
    }

    method InsertTransactionHistory(o: OrderId, entry: Entry, now: int)
      modifies this
      ensures rows == Insert(old(rows), o, entry, now)
    {
      if o in rows {
        var row := rows[o];
        rows := rows[o := row.(entry := row.entry.(payment := entry.payment), updated := now)];
      } else {
        rows := rows[o := Row(entry, now, now)];
      }
    }

    method GetOrderIdForExpiredTransaction(now: int) returns (ids: set<OrderId>)
      ensures ids == Selected(rows, now)
    {
      ids := set o | o in rows && Cancellable(rows[o].entry.status) && Expired(rows[o], now);
    }

    method UpdateTransactionStatus(ids: set<OrderId>, status: OrderStatus)
      modifies this
      ensures rows == Update(old(rows), ids, status)
    {
      if ids == {} {
        return;
      }
      rows := map o | o in rows ::
        if o in ids && Cancellable(rows[o].entry.status) then WithStatus(rows[o], status) else rows[o];
    }

    method CancelOrder(now: int)
      modifies this
      ensures rows.Keys == old(rows).Keys
      ensures forall o | o in rows :: rows[o] ==
                if Stale(old(rows)[o], now)
                then old(rows)[o].(entry := old(rows)[o].entry.(status := OrderCanceled)) else old(rows)[o]
      ensures rows == Update(old(rows), Selected(old(rows), now), OrderCanceled)
    {
      var ids := GetOrderIdForExpiredTransaction(now);
      UpdateTransactionStatus(ids, OrderCanceled);
    }

    method CancelOrderForGivenOrderId(o: OrderId) returns (answer: CancelAnswer)
      modifies this
      ensures answer == if o !in old(rows) then NoSuchOrder
                        else if old(rows)[o].entry.status == OrderCanceled then AlreadyCanceled
                        else if old(rows)[o].entry.status in {PaymentInitiated, PaymentInitiationFailed} then Canceled
                        else UnableToCancel
      ensures rows == if answer == Canceled
                      then old(rows)[o := old(rows)[o].(entry := old(rows)[o].entry.(status := OrderCanceled))]
                      else old(rows)
    {
      if o !in rows {
        return NoSuchOrder;
      }
      var status := rows[o].entry.status;
      if status == OrderCanceled {
        return AlreadyCanceled;
      }
      if status == PaymentInitiated || status == PaymentInitiationFailed {
        UpdateTransactionStatus({o}, OrderCanceled);
        return Canceled;
      }
      return UnableToCancel;
    }
  }

  // ---------- interleaved requests ----------

  /** One database statement at a time: a sweep selects now and updates later, and so does the
      cancellation of a named order; anything may happen between the two. */
  datatype Event =
    | Store(order: OrderId, entry: Entry, now: int)
    | SweepSelect(now: int)
    | SweepUpdate(sweep: nat)
    | NamedRead(order: OrderId)
    | NamedUpdate(order: OrderId)

  /** `sweeps` lists what each sweep has selected, with the time of the SELECT; `named` holds the
      orders whose cancellation by name has been decided. */
  datatype State = State(rows: Rows, sweeps: seq<Sweep>, named: set<OrderId>)
  datatype Sweep = Sweep(now: int, ids: set<OrderId>)

  const EMPTY := State(map[], [], {})

  function Step(s: State, e: Event): State {
    match e
    case Store(o, entry, now) => s.(rows := Insert(s.rows, o, entry, now))
    case SweepSelect(now) => s.(sweeps := s.sweeps + [Sweep(now, Selected(s.rows, now))])
    case SweepUpdate(k) =>
      if k < |s.sweeps| then s.(rows := Update(s.rows, s.sweeps[k].ids, OrderCanceled)) else s
    case NamedRead(o) =>
      if o in s.rows && NamedCancelApplies(s.rows[o].entry.status) then s.(named := s.named + {o}) else s
    case NamedUpdate(o) =>
      if o in s.named then s.(rows := Update(s.rows, {o}, OrderCanceled)) else s
  }

  function Over(s: State, events: seq<Event>): State {
    if events == [] then s else Step(Over(s, events[..|events| - 1]), events[|events| - 1])
  }

  /** Main result on one step: a row is canceled only out of a cancellable status and by an
      update; nothing else ever changes a stored status, and no row disappears. */
  lemma StatusMoves(s: State, e: Event, o: OrderId)
    requires o in s.rows
    ensures o in Step(s, e).rows && Step(s, e).rows[o].created == s.rows[o].created
    ensures var before, after := s.rows[o].entry.status, Step(s, e).rows[o].entry.status;
            after != before ==>
              && after == OrderCanceled && before in {PaymentInitiated, PaymentInitiationFailed, PaymentExecutionFailed}
              && (e.SweepUpdate? || e.NamedUpdate?)
  {
  }

  // The row as the first entry stored for an order would have it.
  function FirstStored(events: seq<Event>, o: OrderId): Option<Row> {
    if events == [] then None
    else
      var earlier, e := FirstStored(events[..|events| - 1], o), events[|events| - 1];
      if earlier.Some? then earlier
      else if e.Store? && e.order == o then Some(Row(e.entry, e.now, e.now))
      else None
  }

  // The row as the last entry stored for an order would have it.
  function LastStored(events: seq<Event>, o: OrderId): Option<Row> {
    if events == [] then None
    else
      var e := events[|events| - 1];
      if e.Store? && e.order == o then Some(Row(e.entry, e.now, e.now)) else LastStored(events[..|events| - 1], o)
  }

  /** Main result over runs: a row exists exactly when something was stored for its order; its
      status is the one first stored, or ORDER_CANCELED if that one was cancellable. */
  lemma {:induction false} StatusIsFirstOrCanceled(events: seq<Event>, o: OrderId)
    ensures var rows, first := Over(EMPTY, events).rows, FirstStored(events, o);
            && (o in rows <==> first.Some?)
            && (o in rows ==> rows[o].entry.status == first.value.entry.status
                              || (rows[o].entry.status == OrderCanceled && first.value.entry.status in
                                    {PaymentInitiated, PaymentInitiationFailed, PaymentExecutionFailed}))
  {
    if events != [] {
      var n := |events| - 1;
      StatusIsFirstOrCanceled(events[..n], o);
      var s := Over(EMPTY, events[..n]);
      if o in s.rows {
        StatusMoves(s, events[n], o);
      }
    }
  }

  /** All else in a row: user, order type and creation time are those first stored, payment and update
      time those last stored, whatever was selected, updated and canceled in between. */
  lemma {:induction false} RowIsFirstAndLast(events: seq<Event>, o: OrderId)
    requires o in Over(EMPTY, events).rows
    ensures var row, first, last := Over(EMPTY, events).rows[o], FirstStored(events, o), LastStored(events, o);
            && first.Some? && last.Some?
            && row == Row(first.value.entry.(status := row.entry.status, payment := last.value.entry.payment),
                          first.value.created, last.value.updated)
  {
    var n := |events| - 1;
    StatusIsFirstOrCanceled(events[..n], o);
    if o in Over(EMPTY, events[..n]).rows {
      RowIsFirstAndLast(events[..n], o);
    }
  }

  /** ORDER_CANCELED is never left, nor is any status that is not cancellable. */
  lemma {:induction false} FinalStatusesStay(s: State, events: seq<Event>, o: OrderId)
    requires o in s.rows && s.rows[o].entry.status in
               {PaymentExecuted, OrderProcessed, OrderProcessingFailed, OrderCanceled}
    ensures o in Over(s, events).rows && Over(s, events).rows[o].entry.status == s.rows[o].entry.status
  {
    if events != [] {
      FinalStatusesStay(s, events[..|events| - 1], o);
      StatusMoves(Over(s, events[..|events| - 1]), events[|events| - 1], o);
    }
  }

  /** An order first stored as processed or as failed in processing is never canceled. */
  lemma ProcessedFirstIsNeverCanceled(events: seq<Event>, o: OrderId)
    requires var first := FirstStored(events, o);
             first.Some? && first.value.entry.status in {OrderProcessed, OrderProcessingFailed}
    ensures var rows := Over(EMPTY, events).rows;
            o in rows && rows[o].entry.status == FirstStored(events, o).value.entry.status
  {
    StatusIsFirstOrCanceled(events, o);
  }

  // ---------- what a sweep has selected ----------

  // Selected orders were cancellable and old enough, and are so still unless canceled since.
  predicate SweepsJustified(s: State) {
    && (forall k, o | 0 <= k < |s.sweeps| && o in s.sweeps[k].ids ::
          o in s.rows && s.sweeps[k].now - s.rows[o].created >= 960
          && (Cancellable(s.rows[o].entry.status) || s.rows[o].entry.status == OrderCanceled))
    && (forall o | o in s.named ::
          o in s.rows && (NamedCancelApplies(s.rows[o].entry.status) || s.rows[o].entry.status == OrderCanceled))
  }

  lemma SweepsStayJustified(s: State, e: Event)
    requires SweepsJustified(s)
    ensures SweepsJustified(Step(s, e))
  {
    forall o | o in s.rows ensures o in Step(s, e).rows && Step(s, e).rows[o].created == s.rows[o].created {
      StatusMoves(s, e, o);
    }
  }

  lemma {:induction false} SweepsJustifiedOver(events: seq<Event>)
    ensures SweepsJustified(Over(EMPTY, events))
  {
    if events != [] {
      SweepsJustifiedOver(events[..|events| - 1]);
      SweepsStayJustified(Over(EMPTY, events[..|events| - 1]), events[|events| - 1]);
    }
  }

  lemma {:induction false} SweepsKept(s: State, events: seq<Event>)
    requires SweepsJustified(s)
    ensures var s' := Over(s, events);
            && SweepsJustified(s') && |s.sweeps| <= |s'.sweeps|
            && forall k | 0 <= k < |s.sweeps| :: s'.sweeps[k] == s.sweeps[k]
  {
    if events != [] {
      SweepsKept(s, events[..|events| - 1]);
      SweepsStayJustified(Over(s, events[..|events| - 1]), events[|events| - 1]);
    }
  }

  /** Main result on cancellation: when the status of a row changes, in any run, the row was sixteen
      minutes old or more at the sweep's SELECT, or was canceled by name out of one of the two
      statuses that allows. */
  lemma CanceledForAReason(events: seq<Event>, e: Event, o: OrderId)
    requires var s := Over(EMPTY, events); o in s.rows && Step(s, e).rows[o].entry.status != s.rows[o].entry.status
    ensures var s := Over(EMPTY, events);
            || (e.SweepUpdate? && e.sweep < |s.sweeps| && o in s.sweeps[e.sweep].ids
                && s.sweeps[e.sweep].now - s.rows[o].created >= 960)
            || (e == NamedUpdate(o) && s.rows[o].entry.status in {PaymentInitiated, PaymentInitiationFailed})
  {
    SweepsJustifiedOver(events);
    StatusMoves(Over(EMPTY, events), e, o);
  }

  /** Main result on interleaving: whatever happens between the SELECT and the UPDATE of a sweep,
      every selected order ends up canceled, even when it was executed and processed in between,
      because storing a later status changes nothing. */
  lemma SelectedAreCanceled(before: seq<Event>, now: int, between: seq<Event>, o: OrderId)
    requires var rows := Over(EMPTY, before).rows; o in rows && Stale(rows[o], now)
    ensures var s := Step(Over(EMPTY, before), SweepSelect(now));
            var s' := Step(Over(s, between), SweepUpdate(|s.sweeps| - 1));
            o in s'.rows && s'.rows[o].entry.status == OrderCanceled
  {
    var s0 := Over(EMPTY, before);
    var s := Step(s0, SweepSelect(now));
    SweepsJustifiedOver(before);
    SweepsStayJustified(s0, SweepSelect(now));
    SweepsKept(s, between);
    SelectedIff(s0.rows, now, o);
    var k, s' := |s0.sweeps|, Over(s, between);
    assert s.sweeps[k].ids == Selected(s0.rows, now) && s'.sweeps[k] == s.sweeps[k];
    UpdateCancels(s', k, o);
  }

  lemma UpdateCancels(s: State, k: nat, o: OrderId)
    requires SweepsJustified(s) && k < |s.sweeps| && o in s.sweeps[k].ids
    ensures var s' := Step(s, SweepUpdate(k)); o in s'.rows && s'.rows[o].entry.status == OrderCanceled
  {
  }

  /** A paid order is canceled like an unpaid one: initiated, processed a minute later, swept after
      sixteen minutes. */
  lemma ProcessedOrderIsCanceled(o: OrderId, initiated: Entry, processed: Entry, t: int)
    requires initiated.status == PaymentInitiated && processed.status == OrderProcessed
    ensures var s := Over(EMPTY, [Store(o, initiated, t), Store(o, processed, t + 60),
                                  SweepSelect(t + 960), SweepUpdate(0)]);
            o in s.rows && s.rows[o].entry.status == OrderCanceled
  {
    var e0, e1, e2, e3 := Store(o, initiated, t), Store(o, processed, t + 60), SweepSelect(t + 960), SweepUpdate(0);
    assert [] + [e0] == [e0] && [e0] + [e1] == [e0, e1] && [e0, e1] + [e2] == [e0, e1, e2];
    assert [e0, e1, e2] + [e3] == [e0, e1, e2, e3];
    OverStep(EMPTY, [], e0);
    OverStep(EMPTY, [e0], e1);
    OverStep(EMPTY, [e0, e1], e2);
    OverStep(EMPTY, [e0, e1, e2], e3);
    assert o in Over(EMPTY, [e0, e1, e2]).sweeps[0].ids;
  }

  lemma OverStep(s: State, events: seq<Event>, e: Event)
    ensures Over(s, events + [e]) == Step(Over(s, events), e)
  {
    assert (events + [e])[..|events|] == events;
  }
}

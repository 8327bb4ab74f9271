/** Initiating and executing an order: payment, at most one channel request, and the history
    (orchestrator/services/order_service.py). */
module OrderSaga {
  import opened Money
  import opened Payments
  import History = TransactionHistory
  import opened Wrappers

  datatype OrderType = CreateWalletAndChannel | CreateChannel | FundChannel | Invalid(name: string)

  datatype Item = Item(orderType: OrderType, recipient: string, channelId: string, walletAddress: string)

  datatype Wallet = Wallet(address: string, privateKey: string)

  /** What the services behind one request answer: the gateway; the wallet service to a creation and
      to a listing; the chain and the signer, whose data an open request needs; and the channel
      service to the open or fund request itself. */
  datatype Answers = Answers(
    execution: Execution, newWallet: Option<Wallet>, wallets: Option<seq<Wallet>>,
    signed: bool, accepted: bool, now: int)

  datatype Channel = Channel(id: string, recipient: string, wallet: string)

  /** What they answer to an initiation: the ids the payments service will give out, the group's
      payment address, the user's channel to fund, and the gateway. */
  datatype InitiationAnswers = InitiationAnswers(
    order: OrderId, payment: PaymentId, recipient: Option<string>, channel: Option<Channel>,
    creation: Creation, now: int)

  datatype ChannelRequest =
    | Open(order: OrderId, sender: string, recipient: string, cogs: int)
    | Fund(order: OrderId, sender: string, recipient: string, channelId: string, cogs: int)

  // ---------- specification ----------

  // The first wallet with the address.
  function WalletAt(wallets: seq<Wallet>, address: string): Option<Wallet> {
    if wallets == [] then None
    else if wallets[0].address == address then Some(wallets[0])
    else WalletAt(wallets[1..], address)
  }

  function Sender(item: Item, a: Answers): Option<Wallet> {
    match item.orderType
    case CreateWalletAndChannel => a.newWallet
    case CreateChannel =>
      if a.wallets.None? then None
      else
        var w := WalletAt(a.wallets.value, item.walletAddress);
        if w.Some? && w.value.privateKey != "" then w else None
    case _ => None
  }

  // The channel requests of one order being processed.
  function Requests(o: OrderId, item: Item, cogs: int, a: Answers): (rs: seq<ChannelRequest>)
    ensures |rs| <= 1
  {
    match item.orderType
    case FundChannel => [Fund(o, item.walletAddress, item.recipient, item.channelId, cogs)]
    case Invalid(_) => []
    case _ =>
      var sender := Sender(item, a);
      if sender.Some? && a.signed then [Open(o, sender.value.address, item.recipient, cogs)] else []
  }

  // The cogs a price buys; None for other currencies and for amounts below one cog.
  function CogsFor(price: Price, factor: Fraction): Option<nat>
    requires Proper(factor)
  {
    if price.currency != "USD" || !Proper(price.amount) then None
    else
      var cogs := CalculateAmountInCogs(price.amount, factor);
      if cogs < 1 then None else Some(cogs)
  }

  datatype State = State(db: Db<Item>, rows: History.Rows, sent: seq<ChannelRequest>)

  // Does the request get as far as charging, with the answer coming back?
  predicate Charged(db: Db<Item>, username: string, o: OrderId, id: PaymentId, a: Answers) {
    Has(db, o, id) && db[o].username == username && ExecutionSucceeds(db, o, id, PAYMENT_METHOD_PAYPAL, a.execution)
  }

  function RequestsOf(db: Db<Item>, factor: Fraction, username: string, o: OrderId, id: PaymentId, a: Answers)
    : (rs: seq<ChannelRequest>)
    requires Proper(factor)
    ensures |rs| <= 1
  {
    if !Charged(db, username, o, id, a) then []
    else
      var cogs := CogsFor(Payment(db, o, id).price, factor);
      if cogs.None? then [] else Requests(o, db[o].item, cogs.value, a)
  }

  function TypeName(t: OrderType): string {
    match t
    case CreateWalletAndChannel => "CREATE_WALLET_AND_CHANNEL"
    case CreateChannel => "CREATE_CHANNEL"
    case FundChannel => "FUND_CHANNEL"
    case Invalid(name) => name
  }

  // The item as it is stored with the order; None when a lookup fails.
  function CompletedItem(item: Item, a: InitiationAnswers): Option<Item> {
    match item.orderType
    case CreateWalletAndChannel =>
      if a.recipient.None? then None
      else Some(item.(walletAddress := "", channelId := "", recipient := a.recipient.value))
    case CreateChannel =>
      if a.recipient.None? then None else Some(item.(channelId := "", recipient := a.recipient.value))
    case FundChannel =>
      if a.channel.None? then None
      else
        var c := a.channel.value;
        Some(Item(FundChannel, c.recipient, c.id, c.wallet))
    case Invalid(_) => None
  }

  function InitiateOrder(s: State, factor: Fraction, username: string, price: Price, item: Item, paymentMethod: string,
                         a: InitiationAnswers): State
    requires Proper(factor)
  {
    var completed := CompletedItem(item, a);
    if CogsFor(price, factor).None? || completed.None? || a.order in s.db then s
    else
      var ordered := s.db[a.order := OrderRow(username, price, completed.value, [])];
      var ok := InitiationSucceeds(ordered, a.order, a.payment, paymentMethod, a.creation);
      var db :=
        if ok then WithPayment(ordered, a.order, PaymentRow(a.payment, price, Pending, Paypal(a.creation.gatewayId)))
        else ordered;
      var entry := History.Entry(username, TypeName(item.orderType),
        if ok then History.PaymentInitiated else History.PaymentInitiationFailed, if ok then a.payment else "");
      s.(db := db, rows := History.Insert(s.rows, a.order, entry, a.now))
  }

  function ExecuteOrder(s: State, factor: Fraction, username: string, o: OrderId, id: PaymentId, a: Answers): State
    requires Proper(factor)
  {
    if !Charged(s.db, username, o, id, a) then s
    else
      var requests := RequestsOf(s.db, factor, username, o, id, a);
      var processed := requests != [] && a.accepted;
      var entry := History.Entry(username, TypeName(s.db[o].item.orderType),
        if processed then History.OrderProcessed else History.OrderProcessingFailed, if processed then id else "");
      State(WithStatus(s.db, o, id, Success), History.Insert(s.rows, o, entry, a.now), s.sent + requests)
  }

  // ---------- what the specification promises ----------

  /** What a price buys: it is in US dollars, and its product with the factor comes, rounded half to
      even, to so many cogs, at least one. */
  ghost predicate Buys(price: Price, factor: Fraction, c: int) {
    && price.currency == "USD" && price.amount.den >= 1 && c >= 1
    && IsHalfEven(c, price.amount.num * factor.num, price.amount.den * factor.den)
  }

  lemma CogsForIff(price: Price, factor: Fraction, c: int)
    requires Proper(factor)
    ensures Buys(price, factor, c) <==> CogsFor(price, factor).Some? && CogsFor(price, factor).value == c
  {
    if price.amount.den >= 1 {
      ProductOfDens(price.amount.den, factor.den);
      HalfEvenIff(c, price.amount.num * factor.num, price.amount.den * factor.den);
    }
  }

  // Nothing is bought with another currency, and by no amount below one cog.
  lemma CogsForNone(price: Price, factor: Fraction)
    requires Proper(factor)
    ensures CogsFor(price, factor).None? <==> forall c: int :: !Buys(price, factor, c)
  {
    if CogsFor(price, factor).Some? {
      CogsForIff(price, factor, CogsFor(price, factor).value);
    } else {
      forall c: int ensures !Buys(price, factor, c) {
        CogsForIff(price, factor, c);
      }
    }
  }

  ghost predicate FirstWallet(wallets: seq<Wallet>, address: string, i: nat) {
    i < |wallets| && wallets[i].address == address && forall j | 0 <= j < i :: wallets[j].address != address
  }

  lemma {:induction false} WalletAtIsFirst(wallets: seq<Wallet>, address: string, i: nat)
    ensures FirstWallet(wallets, address, i) ==> WalletAt(wallets, address) == Some(wallets[i])
    ensures (forall w | w in wallets :: w.address != address) ==> WalletAt(wallets, address) == None
  {
    if wallets != [] && wallets[0].address != address {
      WalletAtIsFirst(wallets[1..], address, if i == 0 then 0 else i - 1);
    }
  }

  // The wallet an open request of the order comes from: the one just created, or the first with the
  // item's address, if it has its key.
  ghost predicate OpensFrom(item: Item, a: Answers, sender: string) {
    && a.signed
    && match item.orderType
       case CreateWalletAndChannel => a.newWallet.Some? && a.newWallet.value.address == sender
       case CreateChannel =>
         && sender == item.walletAddress && a.wallets.Some?
         && exists i: nat :: FirstWallet(a.wallets.value, sender, i) && a.wallets.value[i].privateKey != ""
       case _ => false
  }

  // What the channel service is asked for, up to the amount.
  ghost predicate IsRequestFor(o: OrderId, item: Item, a: Answers, r: ChannelRequest) {
    match r
    case Open(order, sender, recipient, _) => order == o && recipient == item.recipient && OpensFrom(item, a, sender)
    case Fund(order, sender, recipient, id, _) =>
      && item.orderType.FundChannel? && order == o && sender == item.walletAddress
      && recipient == item.recipient && id == item.channelId
  }

  lemma RequestsIff(o: OrderId, item: Item, cogs: int, a: Answers, r: ChannelRequest)
    ensures Requests(o, item, cogs, a) == [r] <==> r.cogs == cogs && IsRequestFor(o, item, a, r)
  {
    if item.orderType.CreateChannel? && a.wallets.Some? {
      var wallets, address := a.wallets.value, item.walletAddress;
      var i := FirstWalletIndex(wallets, address);
      WalletAtIsFirst(wallets, address, i);
      forall j: nat | FirstWallet(wallets, address, j) ensures j == i {
      }
    }
  }

  function FirstWalletIndex(wallets: seq<Wallet>, address: string): (i: nat)
    ensures i < |wallets| ==> FirstWallet(wallets, address, i)
    ensures i >= |wallets| ==> forall w | w in wallets :: w.address != address
  {
    if wallets == [] || wallets[0].address == address then 0
    else
      assert forall j | 0 <= j < |wallets[1..]| :: wallets[1..][j] == wallets[j + 1];
      FirstWalletIndex(wallets[1..], address) + 1
  }

  /** The gateway has just taken the order's payment in row k, the first with its id. */
  ghost predicate PaidBy(db: Db<Item>, username: string, o: OrderId, id: PaymentId, a: Answers, k: nat) {
    && o in db && db[o].username == username && k < |db[o].payments|
    && db[o].payments[k].id == id && (forall j | 0 <= j < k :: db[o].payments[j].id != id)
    && db[o].payments[k].details.Paypal? && a.execution == Executed
  }

  lemma ChargedIff(db: Db<Item>, username: string, o: OrderId, id: PaymentId, a: Answers)
    ensures Charged(db, username, o, id, a) <==> exists k: nat :: PaidBy(db, username, o, id, a, k)
    ensures forall k: nat | PaidBy(db, username, o, id, a, k) :: k == Position(db[o].payments, id)
  {
    if Charged(db, username, o, id, a) {
      assert PaidBy(db, username, o, id, a, Position(db[o].payments, id));
    }
  }

  /** Main result on one execution: the request r is sent exactly when the payment has just been
      taken, its price buys r's cogs, and r is what the order asks for; and there is no other. */
  lemma RequestSentIff(db: Db<Item>, factor: Fraction, username: string, o: OrderId, id: PaymentId, a: Answers,
                       r: ChannelRequest)
    requires Proper(factor)
    ensures RequestsOf(db, factor, username, o, id, a) == [r] <==>
            exists k: nat :: PaidBy(db, username, o, id, a, k) && Buys(db[o].payments[k].price, factor, r.cogs)
                             && IsRequestFor(o, db[o].item, a, r)
  {
    ChargedIff(db, username, o, id, a);
    if Charged(db, username, o, id, a) {
      var price := Payment(db, o, id).price;
      CogsForIff(price, factor, r.cogs);
      if CogsFor(price, factor).Some? {
        RequestsIff(o, db[o].item, CogsFor(price, factor).value, a, r);
      }
    }
  }

  // The order type's name in the history.
  predicate Names(t: OrderType, name: string) {
    || (t.CreateWalletAndChannel? && name == "CREATE_WALLET_AND_CHANNEL")
    || (t.CreateChannel? && name == "CREATE_CHANNEL")
    || (t.FundChannel? && name == "FUND_CHANNEL")
    || t == Invalid(name)
  }

  // The history as one entry leaves it: a row already there keeps its status.
  ghost predicate Noted(rows: History.Rows, rows': History.Rows, o: OrderId, entry: History.Entry, now: int) {
    rows' == rows[o :=
      if o in rows
      then History.Row(rows[o].entry.(payment := entry.payment), rows[o].created, now)
      else History.Row(entry, now, now)]
  }

  /** What an execution leaves: nothing unless the payment has just been taken; then its row says
      SUCCESS, and the history is told whether a request was sent and accepted. */
  lemma ExecutionEffect(s: State, factor: Fraction, username: string, o: OrderId, id: PaymentId, a: Answers, k: nat,
                        name: string)
    requires Proper(factor) && (o in s.db ==> Names(s.db[o].item.orderType, name))
    ensures var s', rs := ExecuteOrder(s, factor, username, o, id, a), RequestsOf(s.db, factor, username, o, id, a);
            && ((forall j: nat :: !PaidBy(s.db, username, o, id, a, j)) ==> s' == s)
            && (PaidBy(s.db, username, o, id, a, k) ==>
                  var rows, done := s.db[o].payments, rs != [] && a.accepted;
                  && s'.sent == s.sent + rs
                  && s'.db == s.db[o := s.db[o].(payments := rows[k := rows[k].(status := Success)])]
                  && Noted(s.rows, s'.rows, o,
                           History.Entry(username, name,
                                         if done then History.OrderProcessed else History.OrderProcessingFailed,
                                         if done then id else ""), a.now))
  {
    ChargedIff(s.db, username, o, id, a);
  }

  // The item stored with a new order: who is paid, and which channel of which wallet is funded.
  ghost predicate StoredItem(item: Item, stored: Item, a: InitiationAnswers) {
    && stored.orderType == item.orderType
    && match item.orderType
       case CreateWalletAndChannel =>
         a.recipient == Some(stored.recipient) && stored.channelId == "" && stored.walletAddress == ""
       case CreateChannel =>
         a.recipient == Some(stored.recipient) && stored.channelId == "" && stored.walletAddress == item.walletAddress
       case FundChannel => a.channel == Some(Channel(stored.channelId, stored.recipient, stored.walletAddress))
       case Invalid(_) => false
  }

  lemma CompletedItemIff(item: Item, stored: Item, a: InitiationAnswers)
    ensures CompletedItem(item, a) == Some(stored) <==> StoredItem(item, stored, a)
  {
  }

  /** The payment id is free, the method is PayPal and the gateway has created the payment. */
  ghost predicate Payable(db: Db<Item>, paymentMethod: string, a: InitiationAnswers) {
    paymentMethod == "paypal" && a.creation.Created? && NoneHas(db, a.payment)
  }

  /** What an initiation leaves: nothing unless the price buys something, every lookup has succeeded
      and the order is new; then the completed order with its pending payment, if there is one, and
      the history entry that says so. */
  lemma InitiationEffect(s: State, factor: Fraction, username: string, price: Price, item: Item, paymentMethod: string,
                         a: InitiationAnswers, stored: Item, c: int, name: string)
    requires Proper(factor) && Names(item.orderType, name)
    ensures var s' := InitiateOrder(s, factor, username, price, item, paymentMethod, a);
            && ((forall n: int :: !Buys(price, factor, n)) || (forall i :: !StoredItem(item, i, a)) || a.order in s.db
                ==> s' == s)
            && (Buys(price, factor, c) && StoredItem(item, stored, a) && a.order !in s.db ==>
                  var ok := Payable(s.db, paymentMethod, a);
                  && s'.sent == s.sent
                  && s'.db == s.db[a.order := OrderRow(username, price, stored,
                       if ok then [PaymentRow(a.payment, price, Pending, Paypal(a.creation.gatewayId))] else [])]
                  && Noted(s.rows, s'.rows, a.order,
                           History.Entry(username, name,
                                         if ok then History.PaymentInitiated else History.PaymentInitiationFailed,
                                         if ok then a.payment else ""), a.now))
  {
    CogsForNone(price, factor);
    CogsForIff(price, factor, c);
    CompletedItemIff(item, stored, a);
    if CompletedItem(item, a).Some? {
      CompletedItemIff(item, CompletedItem(item, a).value, a);
      var ordered := s.db[a.order := OrderRow(username, price, CompletedItem(item, a).value, [])];
      IdTakenIff(ordered, a.payment);
      if a.creation.Created? {
        var row := PaymentRow(a.payment, price, Pending, Paypal(a.creation.gatewayId));
        assert [] + [row] == [row];
      }
      if a.order !in s.db {
        assert forall o | o in s.db :: o in ordered && ordered[o] == s.db[o];
      }
    }
  }

  // ---------- the code ----------

  class OrderService {
    const payments: OrderManager<Item>
    const history: History.TransactionHistoryDAO
    const factor: Fraction
    var sent: seq<ChannelRequest>

    constructor (payments: OrderManager<Item>, history: History.TransactionHistoryDAO, factor: Fraction)
      ensures this.payments == payments && this.history == history && this.factor == factor && sent == []
    {
      this.payments, this.history, this.factor, sent := payments, history, factor, [];
    }

    ghost function Value(): State
      reads this, payments, history
    {
      State(payments.db, history.rows, sent)
    }

    method Initiate(username: string, price: Price, item: Item, paymentMethod: string, a: InitiationAnswers)
      returns (ok: bool)
      requires Proper(factor)
      modifies this, payments, history
      ensures Value() == InitiateOrder(old(Value()), factor, username, price, item, paymentMethod, a)
    {
      if price.currency != "USD" || price.amount.den < 1 {
        return false;
      }
      var cogs := CalculateAmountInCogs(price.amount, factor);
      if cogs < 1 {
        return false;
      }
      var completed := item;
      match item.orderType {
        case CreateWalletAndChannel =>
          completed := completed.(walletAddress := "");
          if a.recipient.None? {
            return false;
          }
          completed := completed.(channelId := "", recipient := a.recipient.value);
        case CreateChannel =>
          if a.recipient.None? {
            return false;
          }
          completed := completed.(channelId := "", recipient := a.recipient.value);
        case FundChannel =>
          if a.channel.None? {
            return false;
          }
          var c := a.channel.value;
          completed := completed.(walletAddress := c.wallet, channelId := c.id, recipient := c.recipient);
        case Invalid(_) =>
          return false;
      }
      var created := payments.CreateOrder(a.order, username, price, completed);
      if !created {
        return false;
      }
      ok := payments.InitiatePaymentAgainstOrder(a.order, a.payment, price, paymentMethod, a.creation);
      var status := if ok then History.PaymentInitiated else History.PaymentInitiationFailed;
      history.InsertTransactionHistory(a.order,
        History.Entry(username, TypeName(item.orderType), status, if ok then a.payment else ""), a.now);
    }

    method FindWallet(wallets: seq<Wallet>, address: string) returns (found: Option<Wallet>)
      ensures found == WalletAt(wallets, address)
    {
      found := None;
      var i := 0;
      assert wallets[0..] == wallets;
      while i < |wallets|
        invariant 0 <= i <= |wallets| && found == None
        invariant WalletAt(wallets, address) == WalletAt(wallets[i..], address)
      {
        assert wallets[i..][1..] == wallets[i + 1..];
        if wallets[i].address == address {
          found := Some(wallets[i]);
          break;
        }
        i := i + 1;
      }
    }

    method ManageProcessOrder(o: OrderId, item: Item, cogs: int, a: Answers) returns (ok: bool)
      modifies this
      ensures sent == old(sent) + Requests(o, item, cogs, a)
      ensures ok == (Requests(o, item, cogs, a) != [] && a.accepted)
    {
      if item.orderType.CreateWalletAndChannel? || item.orderType.CreateChannel? {
        var wallet: Wallet;
        if item.orderType.CreateWalletAndChannel? {
          if a.newWallet.None? {
            return false;
          }
          wallet := a.newWallet.value;
        } else {
          if a.wallets.None? || |a.wallets.value| == 0 {
            return false;
          }
          var found := FindWallet(a.wallets.value, item.walletAddress);
          if found.None? || found.value.privateKey == "" {
            return false;
          }
          wallet := found.value;
        }
        if !a.signed {
          return false;
        }
        sent := sent + [Open(o, wallet.address, item.recipient, cogs)];
        return a.accepted;
      } else if item.orderType.FundChannel? {
        sent := sent + [Fund(o, item.walletAddress, item.recipient, item.channelId, cogs)];
        return a.accepted;
      }
      return false;
    }

    method Execute(username: string, o: OrderId, id: PaymentId, a: Answers) returns (ok: bool)
      requires Proper(factor)
      modifies this, payments, history
      ensures Value() == ExecuteOrder(old(Value()), factor, username, o, id, a)
    {
      if o !in payments.db || payments.db[o].username != username {
        return false;
      }
      var order := payments.db[o];
      var k := FindPayment(order.payments, id);
      if k == |order.payments| || order.payments[k].details.Unknown? {
        return false;
      }
      var price := order.payments[k].price;
      var charged := payments.ExecutePaymentAgainstOrder(o, id, PAYMENT_METHOD_PAYPAL, a.execution);
      if !charged {
        return false;
      }
      ok := false;
      if price.currency == "USD" && price.amount.den >= 1 {
        var cogs := CalculateAmountInCogs(price.amount, factor);
        if cogs >= 1 {
          ok := ManageProcessOrder(o, order.item, cogs, a);
        }
      }
      var status := if ok then History.OrderProcessed else History.OrderProcessingFailed;
      history.InsertTransactionHistory(o,
        History.Entry(username, TypeName(order.item.orderType), status, if ok then id else ""), a.now);
    }

    method FindPayment(rows: seq<PaymentRow>, id: PaymentId) returns (k: nat)
      ensures k == Position(rows, id)
    {
      k := 0;
      while k < |rows|
        invariant k <= |rows| && forall j | 0 <= j < k :: rows[j].id != id
      {
        if rows[k].id == id {
          break;
        }
        k := k + 1;
      }
      PositionUnique(rows, id, k);
    }
  }
}

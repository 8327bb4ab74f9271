/** The projection of on-chain payment channels into the mpe_channel table
    (contract_api/application/consumers/mpe_event_consumer.py and its batch handler). */
module ChannelProjection {
  import opened Base64
  import opened Wrappers

  type Id = int

  // A channel of the MPE contract. Its parties and group never change once it is open.
  datatype Channel = Channel(nonce: int, sender: string, signer: string, recipient: string,
                             groupId: seq<Byte>, value: int, expiration: int)

  // What the consumer hands to the repository.
  datatype NewChannel = NewChannel(channelId: Id, nonce: int, sender: string, signer: string, recipient: string,
                                   groupId: string, balance: int, expiration: int)

  datatype Row = Row(sender: string, signer: string, recipient: string, groupId: string,
                     balance: int, pending: int, nonce: int, expiration: int, consumed: int)

  type Chain = map<Id, Channel>
  type Table = map<Id, Row>

  // An event of the queue; only ChannelOpen carries the channel's data.
  datatype Event =
    | ChannelOpen(id: Id, data: Channel)
    | Reread(id: Id)    // ChannelClaim, ChannelExtend, ChannelAddFunds
    | Unhandled(id: Id) // any other name

  const NO_CHANNEL := Channel(0, "", "", "", [], 0, 0)

  function FromChannel(id: Id, c: Channel): NewChannel {
    NewChannel(id, c.nonce, c.sender, c.signer, c.recipient, Encode(c.groupId), c.value, c.expiration)
  }

  // The contract answers a read of an unknown id with zeros.
  function GetChannelDataFromBlockchain(id: Id, chain: Chain): NewChannel {
    FromChannel(id, if id in chain then chain[id] else NO_CHANNEL)
  }

  /** The group id of an event is bytes, and its first two bytes are compared with a text
      constant, which is never equal: the prefix is never cut off. */
  function ConvertChannelToDomain(e: Event): NewChannel
    requires e.ChannelOpen?
  {
    FromChannel(e.id, e.data)
  }

  function Built(e: Event, chain: Chain): Option<NewChannel> {
    match e
    case ChannelOpen(_, _) => Some(ConvertChannelToDomain(e))
    case Reread(id) => Some(GetChannelDataFromBlockchain(id, chain))
    case Unhandled(_) => None
  }

  // An existing row keeps its parties, its group and its consumed balance.
  function UpsertChannel(table: Table, c: NewChannel): Table {
    if c.channelId in table then
      table[c.channelId := table[c.channelId].(balance := c.balance, pending := 0, nonce := c.nonce,
                                               expiration := c.expiration)]
    else
      table[c.channelId := Row(c.sender, c.signer, c.recipient, c.groupId, c.balance, 0, c.nonce, c.expiration, 0)]
  }

  function AfterEvents(table: Table, events: seq<Event>, chains: seq<Chain>, n: nat): Table
    requires n <= |events| == |chains|
  {
    if n == 0 then table
    else
      var t := AfterEvents(table, events, chains, n - 1);
      match Built(events[n - 1], chains[n - 1])
      case None => t
      case Some(c) => UpsertChannel(t, c)
  }

  class MpeEventConsumer {
    var table: Table

    constructor ()
      ensures table == map[]
    {
      table := map[];
    }

    method OnEvent(request: Event, chain: Chain)
      modifies this
      ensures request.Unhandled? ==> table == old(table)
      ensures !request.Unhandled? ==>
                var id := request.id;
                var c := if request.ChannelOpen? then request.data
                         else if id in chain then chain[id] else Channel(0, "", "", "", [], 0, 0);
                table == old(table)[id :=
                  if id in old(table)
                  then old(table)[id].(balance := c.value, pending := 0, nonce := c.nonce, expiration := c.expiration)
                  else Row(c.sender, c.signer, c.recipient, Encode(c.groupId), c.value, 0, c.nonce, c.expiration, 0)]
      ensures table == AfterEvents(old(table), [request], [chain], 1)
    {
      var channelData;
      match request {
        case ChannelOpen(_, _) => channelData := ConvertChannelToDomain(request);
        case Reread(id) => channelData := GetChannelDataFromBlockchain(id, chain);
        case Unhandled(_) => return;
      }
      table := UpsertChannel(table, channelData);
    }

    /** The batch loop. `chains` is the state of the chain at each event; the loop raises at event
        `failing`, if there is one, and what it has written stays written. */
    method HandleBatch(events: seq<Event>, chains: seq<Chain>, failing: nat) returns (acknowledged: bool)
      requires |events| == |chains|
      modifies this
      ensures acknowledged <==> failing >= |events|
      ensures table == AfterEvents(old(table), events, chains, if acknowledged then |events| else failing)
    {
      var i := 0;
      while i < |events|
        invariant 0 <= i <= |events| && i <= failing
        invariant table == AfterEvents(old(table), events, chains, i)
      {
        if i == failing {
          return false;
        }
        OnEvent(events[i], chains[i]);
        assert AfterEvents(old(table), events, chains, i + 1) ==
               AfterEvents(AfterEvents(old(table), events, chains, i), [events[i]], [chains[i]], 1);
        i := i + 1;
      }
      return true;
    }
  }

  // ---------- chain, queue and consumer as one state machine ----------

  /** `batch` is the number of queued events the running invocation was given (0: none is running),
      `done` how many of them it has handled, `built` the record it has built but not yet written.
      `untold` collects the channels whose latest change emitted an unhandled event. */
  datatype State = State(chain: Chain, queue: seq<Event>, table: Table,
                         batch: nat, done: nat, built: Option<NewChannel>, untold: set<Id>)

  const INITIAL := State(map[], [], map[], 0, 0, None, {})

  datatype Step =
    | OpenChannel(id: Id, channel: Channel)
    | ChangeChannel(id: Id, nonce: int, value: int, expiration: int, told: bool)
    | Deliver(size: nat)                 // an invocation starts with the first `size` events
    | Build                              // it handles an event as far as the repository call
    | Write                              // the repository call
    | Fail                               // it dies: the whole batch will be delivered again
    | Acknowledge
    | UpdateConsumedBalance(id: Id, amount: int)

  predicate Enabled(s: State, step: Step) {
    match step
    case OpenChannel(id, _) => id !in s.chain
    case ChangeChannel(id, _, _, _, _) => id in s.chain
    case Deliver(size) => s.batch == 0 && 0 < size <= |s.queue|
    case Build => s.done < s.batch <= |s.queue| && s.built.None?
    case Write => s.done < s.batch && s.built.Some?
    case Fail => s.batch > 0
    case Acknowledge => 0 < s.batch <= |s.queue| && s.done == s.batch && s.built.None?
    case UpdateConsumedBalance(id, _) => id in s.table
  }

  function Next(s: State, step: Step): State
    requires Enabled(s, step)
  {
    match step
    case OpenChannel(id, c) =>
      s.(chain := s.chain[id := c], queue := s.queue + [ChannelOpen(id, c)], untold := s.untold - {id})
    case ChangeChannel(id, nonce, value, expiration, told) =>
      s.(chain := s.chain[id := s.chain[id].(nonce := nonce, value := value, expiration := expiration)],
         queue := s.queue + [if told then Reread(id) else Unhandled(id)],
         untold := if told then s.untold - {id} else s.untold + {id})
    case Deliver(size) => s.(batch := size, done := 0)
    case Build =>
      var b := Built(s.queue[s.done], s.chain);
      if b.None? then s.(done := s.done + 1) else s.(built := b)
    case Write => s.(table := UpsertChannel(s.table, s.built.value), built := None, done := s.done + 1)
    case Fail => s.(batch := 0, done := 0, built := None)
    case Acknowledge => s.(queue := s.queue[s.batch..], batch := 0, done := 0)
    case UpdateConsumedBalance(id, amount) => s.(table := s.table[id := s.table[id].(consumed := amount)])
  }

  /** The states reached by a run; steps that are not enabled do nothing. */
  function After(run: seq<Step>): State {
    if run == [] then INITIAL
    else
      var s, step := After(run[..|run| - 1]), run[|run| - 1];
      if Enabled(s, step) then Next(s, step) else s
  }
}

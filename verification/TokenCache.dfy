/** The free-call token cache of the signer (signer/application/service.py and its token
    repository), one request at a time. */
module TokenCache {
  import opened Wrappers

  type Token = string

  datatype Key = Key(username: string, organization: string, service: string, group: string)
  datatype Entry = Entry(token: Token, expiration: int)
  type Store = map<Key, Entry>

  /** What the daemon answers. */
  datatype Daemon = Issues(token: Token, expiration: int) | RpcError | InvalidEndpoint

  /** What the contract API answers about the group, with the daemon's answer behind it. */
  datatype World = LookupFails | Group(freeCalls: int, daemon: Daemon)

  datatype Request = Request(key: Key, block: int, world: World)

  datatype Error = ContractApiClientError | ZeroFreeCallsAvailable | DaemonUnavailable | ValueError | IntegrityError
  datatype Response = Signed(token: Token, expiration: int) | Failed(error: Error)

  // ---------- specification ----------

  // The cached entry does not serve a request for the key at this block.
  predicate Miss(store: Store, key: Key, block: int) {
    key !in store || store[key].expiration <= block
  }

  // The token column is unique over the table.
  predicate TakenElsewhere(store: Store, key: Key, token: Token) {
    exists k | k in store :: k != key && store[k].token == token
  }

  function Fetch(world: World): Option<Daemon> {
    if world.Group? && world.freeCalls != 0 then Some(world.daemon) else None
  }

  function Issued(world: World): Option<Entry> {
    if Fetch(world).Some? && world.daemon.Issues?
    then Some(Entry(world.daemon.token, world.daemon.expiration)) else None
  }

  function StoreAfter(store: Store, lifetime: int, r: Request): Store {
    var issued := Issued(r.world);
    if !Miss(store, r.key, r.block) || issued.None? || TakenElsewhere(store, r.key, issued.value.token) then store
    else store[r.key := Entry(issued.value.token, r.block + lifetime)]
  }

  function Answer(store: Store, r: Request): Response {
    if !Miss(store, r.key, r.block) then Signed(store[r.key].token, store[r.key].expiration)
    else match r.world
      case LookupFails => Failed(ContractApiClientError)
      case Group(freeCalls, daemon) =>
        if freeCalls == 0 then Failed(ZeroFreeCallsAvailable)
        else match daemon
          case RpcError => Failed(DaemonUnavailable)
          case InvalidEndpoint => Failed(ValueError)
          case Issues(token, expiration) =>
            if TakenElsewhere(store, r.key, token) then Failed(IntegrityError) else Signed(token, expiration)
  }

  /** A request's answer and the store afterwards, case by case: the cached token while it is valid; no
      token without the contract API's answer, without free calls, or without the daemon's; and a new one
      unless another key has it already. */
  ghost predicate Answers(store: Store, store': Store, lifetime: int, r: Request, response: Response) {
    if r.key in store && r.block < store[r.key].expiration then
      response == Signed(store[r.key].token, store[r.key].expiration) && store' == store
    else match r.world
      case LookupFails => response == Failed(ContractApiClientError) && store' == store
      case Group(freeCalls, daemon) =>
        if freeCalls == 0 then response == Failed(ZeroFreeCallsAvailable) && store' == store
        else match daemon
          case RpcError => response == Failed(DaemonUnavailable) && store' == store
          case InvalidEndpoint => response == Failed(ValueError) && store' == store
          case Issues(token, expiration) =>
            if exists k | k in store :: k != r.key && store[k].token == token
            then response == Failed(IntegrityError) && store' == store
            else && response == Signed(token, expiration)
                 && store' == store[r.key := Entry(token, r.block + lifetime)]
  }

  // ---------- the code ----------

  class FreeCallTokenInfoRepository {
    var store: Store

    constructor ()
      ensures store == map[]
    {
      store := map[];
    }

    method GetFreeCallTokenInfoByUsername(key: Key) returns (info: Option<Entry>)
      ensures info == if key in store then Some(store[key]) else None
    {
      info := if key in store then Some(store[key]) else None;
    }

    /** The commit fails when another row has the token; the session is then rolled back. */
    method InsertOrUpdateFreeCallTokenInfo(key: Key, expiration: int, token: Token) returns (info: Option<Entry>)
      modifies this
      ensures if exists k | k in old(store) :: k != key && old(store)[k].token == token
              then info.None? && store == old(store)
              else info == Some(Entry(token, expiration)) && store == old(store)[key := Entry(token, expiration)]
    {
      if exists k | k in store :: k != key && store[k].token == token {
        return None;
      }
      if key in store {
        var row := store[key];
        store := store[key := row.(expiration := expiration, token := token)];
      } else {
        store := store[key := Entry(token, expiration)];
      }
      info := Some(store[key]);
    }
  }

  class SignerService {
    const repository: FreeCallTokenInfoRepository
    const expirationBlockCount: int

    constructor (repository: FreeCallTokenInfoRepository, expirationBlockCount: int)
      ensures this.repository == repository && this.expirationBlockCount == expirationBlockCount
    {
      this.repository, this.expirationBlockCount := repository, expirationBlockCount;
    }

    method GetFreeCallSignature(r: Request) returns (response: Response)
      modifies repository
      ensures Answers(old(repository.store), repository.store, expirationBlockCount, r, response)
      ensures repository.store == StoreAfter(old(repository.store), expirationBlockCount, r)
      ensures response == Answer(old(repository.store), r)
    {
      var info := repository.GetFreeCallTokenInfoByUsername(r.key);
      var expiration := if info.Some? then info.value.expiration else 0;
      if info.None? || expiration <= r.block {
        if r.world.LookupFails? {
          return Failed(ContractApiClientError);
        }
        if r.world.freeCalls == 0 {
          return Failed(ZeroFreeCallsAvailable);
        }
        match r.world.daemon {
          case RpcError => return Failed(DaemonUnavailable);
          case InvalidEndpoint => return Failed(ValueError);
          case Issues(token, until) =>
            expiration := until;
            info := repository.InsertOrUpdateFreeCallTokenInfo(r.key, r.block + expirationBlockCount, token);
            if info.None? {
              return Failed(IntegrityError);
            }
        }
      }
      response := Signed(info.value.token, expiration);
    }
  }

  // ---------- runs ----------

  type Requests = seq<Request>

  function StoreOver(store: Store, lifetime: int, rs: Requests): Store {
    if rs == [] then store
    else StoreAfter(StoreOver(store, lifetime, rs[..|rs| - 1]), lifetime, rs[|rs| - 1])
  }

  // The answer to the last request of a run.
  function LastAnswer(store: Store, lifetime: int, rs: Requests): Response
    requires rs != []
  {
    Answer(StoreOver(store, lifetime, rs[..|rs| - 1]), rs[|rs| - 1])
  }

  predicate NonDecreasing(rs: Requests) {
    forall i, j | 0 <= i < j < |rs| :: rs[i].block <= rs[j].block
  }

  // ---------- tokens stay distinct ----------

  predicate DistinctTokens(store: Store) {
    forall k, l | k in store && l in store && k != l :: store[k].token != store[l].token
  }

  lemma {:induction false} TokensStayDistinct(store: Store, lifetime: int, rs: Requests)
    requires DistinctTokens(store)
    ensures DistinctTokens(StoreOver(store, lifetime, rs))
  {
    if rs != [] {
      TokensStayDistinct(store, lifetime, rs[..|rs| - 1]);
    }
  }

  /** Requests for other keys never change an entry. */
  lemma {:induction false} OtherKeysUntouched(store: Store, lifetime: int, rs: Requests, key: Key)
    requires forall r | r in rs :: r.key != key
    ensures var store' := StoreOver(store, lifetime, rs);
            (key in store' <==> key in store) && (key in store ==> store'[key] == store[key])
  {
    if rs != [] {
      OtherKeysUntouched(store, lifetime, rs[..|rs| - 1], key);
    }
  }

  // ---------- a cache-free account of the same runs ----------

  /** What an onlooker notes of a signed answer: for whom, when, which token, and whether the
      daemon had issued it just then. */
  datatype Note = Note(key: Key, block: int, token: Token, issued: bool)

  function Notes(store: Store, lifetime: int, rs: Requests): seq<Note> {
    if rs == [] then []
    else
      var r, before := rs[|rs| - 1], rs[..|rs| - 1];
      var earlier, answer := Notes(store, lifetime, before), LastAnswer(store, lifetime, rs);
      if answer.Failed? then earlier
      else earlier + [Note(r.key, r.block, answer.token, Miss(StoreOver(store, lifetime, before), r.key, r.block))]
  }

  // The note of the most recent token issued for exactly this key.
  function LastIssue(notes: seq<Note>, key: Key): Option<Note> {
    if notes == [] then None
    else
      var n := notes[|notes| - 1];
      if n.key == key && n.issued then Some(n) else LastIssue(notes[..|notes| - 1], key)
  }

  lemma LastIssueStep(notes: seq<Note>, n: Note, key: Key)
    ensures LastIssue(notes + [n], key) == if n.key == key && n.issued then Some(n) else LastIssue(notes, key)
  {
    assert (notes + [n])[..|notes|] == notes;
  }

  /** The store is a function of the notes: under each key, the token last issued for it, to expire
      `lifetime` blocks after its issue. */
  lemma {:induction false} StoreIsLastIssue(lifetime: int, rs: Requests, key: Key)
    ensures var store, last := StoreOver(map[], lifetime, rs), LastIssue(Notes(map[], lifetime, rs), key);
            && (key in store <==> last.Some?)
            && (last.Some? ==> store[key] == Entry(last.value.token, last.value.block + lifetime))
  {
    if rs != [] {
      var before, r := rs[..|rs| - 1], rs[|rs| - 1];
      StoreIsLastIssue(lifetime, before, key);
      var answer := LastAnswer(map[], lifetime, rs);
      if answer.Signed? {
        LastIssueStep(Notes(map[], lifetime, before), Note(r.key, r.block, answer.token,
          Miss(StoreOver(map[], lifetime, before), r.key, r.block)), key);
      }
    }
  }

  /** Main result on agreement: a request is served without the daemon exactly when the token last
      issued for its own key was issued less than `lifetime` blocks before, and then that token is
      the answer, with the block it was issued at plus `lifetime` as its expiration. */
  lemma ServedFromLastIssueIff(lifetime: int, rs: Requests)
    requires rs != []
    ensures var before, r := rs[..|rs| - 1], rs[|rs| - 1];
            var last := LastIssue(Notes(map[], lifetime, before), r.key);
            && (!Miss(StoreOver(map[], lifetime, before), r.key, r.block) <==>
                last.Some? && r.block < last.value.block + lifetime)
            && (last.Some? && r.block < last.value.block + lifetime ==>
                LastAnswer(map[], lifetime, rs) == Signed(last.value.token, last.value.block + lifetime))
  {
    StoreIsLastIssue(lifetime, rs[..|rs| - 1], rs[|rs| - 1].key);
  }

  /** Every signed answer carries the token last issued for exactly its key, and what is stored
      expires after the request's block. */
  lemma SignedTokenIsLastIssued(lifetime: int, rs: Requests)
    requires rs != [] && lifetime >= 1 && LastAnswer(map[], lifetime, rs).Signed?
    ensures var r, answer := rs[|rs| - 1], LastAnswer(map[], lifetime, rs);
            var last, store := LastIssue(Notes(map[], lifetime, rs), r.key), StoreOver(map[], lifetime, rs);
            && last.Some? && answer.token == last.value.token && r.block < last.value.block + lifetime
            && r.key in store && store[r.key].token == answer.token && r.block < store[r.key].expiration
  {
    StoreIsLastIssue(lifetime, rs, rs[|rs| - 1].key);
  }

  /** The expiration an answer states is the stored one exactly when it came from the cache or the
      daemon happens to name the same block. */
  lemma StatedExpirationIff(store: Store, lifetime: int, r: Request)
    requires Answer(store, r).Signed?
    ensures var store' := StoreAfter(store, lifetime, r);
            && r.key in store'
            && (Answer(store, r).expiration == store'[r.key].expiration <==>
                !Miss(store, r.key, r.block) || Issued(r.world).value.expiration == r.block + lifetime)
  {
    if Miss(store, r.key, r.block) {
      assert Issued(r.world).Some?;
    }
  }

  // ---------- how often the daemon issues ----------

  // Tokens issued for the key and stored.
  function StoredIssues(store: Store, lifetime: int, rs: Requests, key: Key): nat {
    if rs == [] then 0
    else
      var before, r := rs[..|rs| - 1], rs[|rs| - 1];
      var s := StoreOver(store, lifetime, before);
      StoredIssues(store, lifetime, before, key) +
      if Stores(s, r, key) then 1 else 0
  }

  // Tokens issued for the key and lost, because another key holds the same token.
  function LostIssues(store: Store, lifetime: int, rs: Requests, key: Key): nat {
    if rs == [] then 0
    else
      var before, r := rs[..|rs| - 1], rs[|rs| - 1];
      var s := StoreOver(store, lifetime, before);
      LostIssues(store, lifetime, before, key) +
      if r.key == key && Miss(s, key, r.block) && Issued(r.world).Some?
         && TakenElsewhere(s, key, Issued(r.world).value.token) then 1 else 0
  }

  // Tokens the daemon issued for the key, kept or not.
  function DaemonIssues(store: Store, lifetime: int, rs: Requests, key: Key): nat {
    if rs == [] then 0
    else
      var before, r := rs[..|rs| - 1], rs[|rs| - 1];
      DaemonIssues(store, lifetime, before, key) +
      if r.key == key && Miss(StoreOver(store, lifetime, before), key, r.block) && Issued(r.world).Some? then 1 else 0
  }

  lemma {:induction false} IssuesAddUp(store: Store, lifetime: int, rs: Requests, key: Key)
    ensures DaemonIssues(store, lifetime, rs, key)
         == StoredIssues(store, lifetime, rs, key) + LostIssues(store, lifetime, rs, key)
  {
    if rs != [] {
      IssuesAddUp(store, lifetime, rs[..|rs| - 1], key);
    }
  }

  // n lifetimes in blocks.
  function Span(n: nat, lifetime: nat): nat {
    if n == 0 then 0 else Span(n - 1, lifetime) + lifetime
  }

  /** Each stored issue moves the key's expiration at least `lifetime` blocks on. */
  lemma {:induction false} IssuesPushExpiration(store: Store, lifetime: nat, rs: Requests, key: Key, b0: int, b1: int)
    requires NonDecreasing(rs) && b0 <= b1
    requires forall i | 0 <= i < |rs| :: b0 <= rs[i].block <= b1
    ensures var n, store' := StoredIssues(store, lifetime, rs, key), StoreOver(store, lifetime, rs);
            n > 0 ==> key in store' && b0 + Span(n, lifetime) <= store'[key].expiration <= b1 + lifetime
  {
    if rs != [] {
      var before, r := rs[..|rs| - 1], rs[|rs| - 1];
      IssuesPushExpiration(store, lifetime, before, key, b0, b1);
      var n, s := StoredIssues(store, lifetime, before, key), StoreOver(store, lifetime, before);
      EntryAfter(s, lifetime, r, key);
      assert StoredIssues(store, lifetime, rs, key) == n + if Stores(s, r, key) then 1 else 0;
      assert b0 <= rs[|rs| - 1].block <= b1;
    }
  }

  // Does the request store a newly issued token for the key?
  predicate Stores(store: Store, r: Request, key: Key) {
    && r.key == key && Miss(store, key, r.block) && Issued(r.world).Some?
    && !TakenElsewhere(store, key, Issued(r.world).value.token)
  }

  lemma EntryAfter(store: Store, lifetime: nat, r: Request, key: Key)
    ensures var store' := StoreAfter(store, lifetime, r);
            if Stores(store, r, key)
            then key in store' && store'[key].expiration == r.block + lifetime
                 && (key in store ==> store[key].expiration <= r.block)
            else (key in store' <==> key in store) && (key in store ==> store'[key] == store[key])
  {
  }

  /** Main result on the daemon's load: between blocks b0 and b1 the daemon issues at most
      1 + (b1 - b0) / lifetime tokens for a key, and one more for each that could not be stored. */
  lemma {:induction false} FetchBound(store: Store, lifetime: nat, rs: Requests, key: Key, b0: int, b1: int)
    requires lifetime >= 1 && NonDecreasing(rs) && b0 <= b1
    requires forall i | 0 <= i < |rs| :: b0 <= rs[i].block <= b1
    ensures DaemonIssues(store, lifetime, rs, key)
         <= 1 + (b1 - b0) / lifetime + LostIssues(store, lifetime, rs, key)
  {
    IssuesAddUp(store, lifetime, rs, key);
    IssuesPushExpiration(store, lifetime, rs, key, b0, b1);
    if StoredIssues(store, lifetime, rs, key) > 0 {
      SpansWithin(StoredIssues(store, lifetime, rs, key) - 1, lifetime, b1 - b0);
    }
  }

  lemma SpansWithin(n: nat, lifetime: nat, d: nat)
    requires lifetime >= 1 && Span(n, lifetime) <= d
    ensures n <= d / lifetime
  {
    var q := d / lifetime;
    SpanIsProduct(q, lifetime);
    if q < n {
      SpansGrow(q + 1, n, lifetime);
    }
  }

  lemma {:induction false} SpanIsProduct(n: nat, lifetime: nat)
    ensures Span(n, lifetime) == lifetime * n
  {
    if n > 0 {
      SpanIsProduct(n - 1, lifetime);
      assert lifetime * n == lifetime * (n - 1) + lifetime;
    }
  }

  lemma {:induction false} SpansGrow(m: nat, n: nat, lifetime: nat)
    requires m <= n
    ensures Span(m, lifetime) <= Span(n, lifetime)
  {
    if m < n {
      SpansGrow(m, n - 1, lifetime);
    }
  }

  /** No token is lost when the daemon never repeats one for two keys. */
  lemma {:induction false} FreshTokensAreKept(lifetime: int, rs: Requests, key: Key)
    requires forall i, j | 0 <= i < j < |rs| && Issued(rs[i].world).Some? && Issued(rs[j].world).Some? ::
               rs[i].key == rs[j].key || Issued(rs[i].world).value.token != Issued(rs[j].world).value.token
    ensures LostIssues(map[], lifetime, rs, key) == 0
    ensures forall k | k in StoreOver(map[], lifetime, rs) ::
              exists i | 0 <= i < |rs| :: rs[i].key == k && Issued(rs[i].world).Some?
                && Issued(rs[i].world).value.token == StoreOver(map[], lifetime, rs)[k].token
  {
    if rs != [] {
      var before, r := rs[..|rs| - 1], rs[|rs| - 1];
      FreshTokensAreKept(lifetime, before, key);
      var s, s' := StoreOver(map[], lifetime, before), StoreOver(map[], lifetime, rs);
      forall k | k in s'
        ensures exists i | 0 <= i < |rs| :: rs[i].key == k && Issued(rs[i].world).Some?
                  && Issued(rs[i].world).value.token == s'[k].token
      {
        if k in s && s'[k] == s[k] {
          var i :| 0 <= i < |before| && before[i].key == k && Issued(before[i].world).Some?
                   && Issued(before[i].world).value.token == s[k].token;
          assert rs[i] == before[i];
        } else {
          assert rs[|rs| - 1] == r && r.key == k;
        }
      }
    }
  }

  /** The allowance for lost tokens is needed: while another key holds the daemon's token, every
      one of `n` requests at one block fetches it anew. */
  lemma {:induction false} RepeatedTokenIsFetchedEveryTime(lifetime: int, key: Key, other: Key, r: Request,
                                                           rs: Requests)
    requires lifetime >= 1 && key != other && r.key == key && Issued(r.world).Some?
    requires forall i | 0 <= i < |rs| :: rs[i] == r
    ensures var store := map[other := Entry(Issued(r.world).value.token, r.block)];
            StoreOver(store, lifetime, rs) == store && DaemonIssues(store, lifetime, rs, key) == |rs|
  {
    if rs != [] {
      RepeatedTokenIsFetchedEveryTime(lifetime, key, other, r, rs[..|rs| - 1]);
      var store := map[other := Entry(Issued(r.world).value.token, r.block)];
      assert other in store && store[other].token == Issued(r.world).value.token;
    }
  }
}

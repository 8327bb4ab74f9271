/** Whatever the interleaving of chain changes, deliveries, crashes and redeliveries, a channel
    without a queued event has a table row equal to its chain record. */
module ProjectionConvergence {
  import opened Base64
  import opened ChannelProjection
  import opened Wrappers

  predicate SameParties(id: Id, n: NewChannel, c: Channel) {
    && n.channelId == id && n.sender == c.sender && n.signer == c.signer && n.recipient == c.recipient
    && n.groupId == Encode(c.groupId)
  }

  predicate RowParties(r: Row, c: Channel) {
    r.sender == c.sender && r.signer == c.signer && r.recipient == c.recipient && r.groupId == Encode(c.groupId)
  }

  // The row is the chain record; the consumed balance is not on the chain.
  predicate RowEquals(r: Row, c: Channel) {
    && RowParties(r, c) && r.pending == 0
    && r.balance == c.value && r.nonce == c.nonce && r.expiration == c.expiration
  }

  predicate Agrees(s: State, id: Id) {
    id in s.table && id in s.chain && RowEquals(s.table[id], s.chain[id])
  }

  // No event from index `from` on concerns the channel.
  predicate Quiet(queue: seq<Event>, from: nat, id: Id) {
    forall i | from <= i < |queue| :: queue[i].id != id
  }

  // ---------- the invariant ----------

  predicate Progressing(s: State) {
    s.done <= s.batch <= |s.queue| && (s.built.Some? ==> s.done < s.batch)
  }

  predicate TableOnChain(s: State) {
    forall id | id in s.table :: id in s.chain && RowParties(s.table[id], s.chain[id])
  }

  // What the last queued event of a channel says about the chain.
  predicate QueueTellsChain(s: State, i: nat)
    requires i < |s.queue|
  {
    var e := s.queue[i];
    && e.id in s.chain
    && (e.ChannelOpen? ==> SameParties(e.id, ConvertChannelToDomain(e), s.chain[e.id]))
    && (Quiet(s.queue, i + 1, e.id) ==>
          && (e.ChannelOpen? ==> e.data == s.chain[e.id])
          && (e.Unhandled? ==> e.id in s.untold))
  }

  // The record waiting to be written is of the event being handled, and fresh unless the channel
  // has changed since, in which case a later event tells.
  predicate BuiltInTime(s: State) {
    s.built.Some? && s.done < |s.queue| ==>
      var n, id := s.built.value, s.queue[s.done].id;
      && id in s.chain && SameParties(id, n, s.chain[id])
      && (Quiet(s.queue, s.done + 1, id) && id !in s.untold ==> n == FromChannel(id, s.chain[id]))
  }

  predicate Settled(s: State, id: Id) {
    Quiet(s.queue, s.done, id) && id !in s.untold ==> Agrees(s, id)
  }

  predicate Inv(s: State) {
    && Progressing(s) && TableOnChain(s) && BuiltInTime(s)
    && (forall i | 0 <= i < |s.queue| :: QueueTellsChain(s, i))
    && (forall id | id in s.chain :: Settled(s, id))
  }

  lemma QuietAppend(queue: seq<Event>, e: Event, from: nat, id: Id)
    requires from <= |queue|
    ensures Quiet(queue + [e], from, id) <==> Quiet(queue, from, id) && e.id != id
  {
    var longer := queue + [e];
    if Quiet(longer, from, id) {
      assert longer[|queue|] == e;
      forall i | from <= i < |queue|
        ensures queue[i].id != id
      {
        assert longer[i] == queue[i];
      }
    }
  }

  lemma ChainStepKeeps(s: State, id: Id, c: Channel, e: Event, untold: set<Id>)
    requires Inv(s) && e.id == id
    requires id in s.chain ==> !e.ChannelOpen? && SameParties(id, FromChannel(id, c), s.chain[id])
    requires id !in s.chain ==> e == ChannelOpen(id, c)
    requires untold == if e.Unhandled? then s.untold + {id} else s.untold - {id}
    ensures Inv(s.(chain := s.chain[id := c], queue := s.queue + [e], untold := untold))
  {
    var t := s.(chain := s.chain[id := c], queue := s.queue + [e], untold := untold);
    forall from: nat, x | from <= |s.queue|
      ensures Quiet(t.queue, from, x) <==> Quiet(s.queue, from, x) && x != id
    {
      QuietAppend(s.queue, e, from, x);
    }
    forall i | 0 <= i < |t.queue|
      ensures QueueTellsChain(t, i)
    {
      if i < |s.queue| {
        assert QueueTellsChain(s, i) && t.queue[i] == s.queue[i];
      }
    }
    forall x | x in t.chain
      ensures Settled(t, x)
    {
      if x != id {
        assert Settled(s, x);
      }
    }
    assert BuiltInTime(t) by {
      if s.built.Some? {
        assert t.queue[s.done] == s.queue[s.done];
      }
    }
  }

  lemma BuildKeeps(s: State)
    requires Inv(s) && Enabled(s, Build)
    ensures Inv(Next(s, Build))
  {
    var t, e := Next(s, Build), s.queue[s.done];
    assert QueueTellsChain(s, s.done);
    forall i | 0 <= i < |t.queue|
      ensures QueueTellsChain(t, i)
    {
      assert QueueTellsChain(s, i);
    }
    forall id | id in t.chain
      ensures Settled(t, id)
    {
      assert Settled(s, id);
      if e.id != id && Quiet(t.queue, t.done, id) {
        assert Quiet(s.queue, s.done, id);
      }
    }
  }

  lemma WriteKeeps(s: State)
    requires Inv(s) && Enabled(s, Write)
    ensures Inv(Next(s, Write))
  {
    var t, e, n := Next(s, Write), s.queue[s.done], s.built.value;
    assert t.table == UpsertChannel(s.table, n) && n.channelId == e.id;
    forall i | 0 <= i < |t.queue|
      ensures QueueTellsChain(t, i)
    {
      assert QueueTellsChain(s, i);
    }
    forall id | id in t.chain
      ensures Settled(t, id)
    {
      assert Settled(s, id);
      if e.id != id && Quiet(t.queue, t.done, id) {
        assert Quiet(s.queue, s.done, id);
      }
    }
  }

  lemma AcknowledgeKeeps(s: State)
    requires Inv(s) && Enabled(s, Acknowledge)
    ensures Inv(Next(s, Acknowledge))
  {
    var t := Next(s, Acknowledge);
    assert forall i | 0 <= i < |t.queue| :: t.queue[i] == s.queue[i + s.batch];
    forall from: nat, id | Quiet(t.queue, from, id)
      ensures Quiet(s.queue, from + s.batch, id)
    {
      forall i | from + s.batch <= i < |s.queue|
        ensures s.queue[i].id != id
      {
        assert s.queue[i] == t.queue[i - s.batch];
      }
    }
    forall i | 0 <= i < |t.queue|
      ensures QueueTellsChain(t, i)
    {
      assert QueueTellsChain(s, i + s.batch);
      if Quiet(t.queue, i + 1, t.queue[i].id) {
        assert Quiet(s.queue, i + 1 + s.batch, t.queue[i].id);
      }
    }
    forall id | id in t.chain
      ensures Settled(t, id)
    {
      assert Settled(s, id);
      if Quiet(t.queue, 0, id) {
        assert Quiet(s.queue, 0 + s.batch, id);
      }
    }
  }

  // Starting or abandoning a batch only forgets what was settled by it.
  lemma RewindKeeps(s: State, batch: nat)
    requires Inv(s) && batch <= |s.queue|
    ensures Inv(s.(batch := batch, done := 0, built := None))
  {
    var t := s.(batch := batch, done := 0, built := None);
    forall i | 0 <= i < |t.queue|
      ensures QueueTellsChain(t, i)
    {
      assert QueueTellsChain(s, i);
    }
    forall id | id in t.chain
      ensures Settled(t, id)
    {
      assert Settled(s, id);
    }
  }

  lemma ConsumedKeeps(s: State, id: Id, amount: int)
    requires Inv(s) && id in s.table
    ensures Inv(Next(s, UpdateConsumedBalance(id, amount)))
  {
    var t := Next(s, UpdateConsumedBalance(id, amount));
    forall i | 0 <= i < |t.queue|
      ensures QueueTellsChain(t, i)
    {
      assert QueueTellsChain(s, i);
    }
    forall x | x in t.chain
      ensures Settled(t, x)
    {
      assert Settled(s, x);
    }
  }

  lemma NextKeeps(s: State, step: Step)
    requires Inv(s) && Enabled(s, step)
    ensures Inv(Next(s, step))
  {
    match step
    case OpenChannel(id, c) =>
      ChainStepKeeps(s, id, c, ChannelOpen(id, c), s.untold - {id});
    case ChangeChannel(id, nonce, value, expiration, told) =>
      var c := s.chain[id].(nonce := nonce, value := value, expiration := expiration);
      ChainStepKeeps(s, id, c, if told then Reread(id) else Unhandled(id),
                     if told then s.untold - {id} else s.untold + {id});
    case Deliver(size) =>
      RewindKeeps(s, size);
    case Build => BuildKeeps(s);
    case Write => WriteKeeps(s);
    case Fail => RewindKeeps(s, 0);
    case Acknowledge => AcknowledgeKeeps(s);
    case UpdateConsumedBalance(id, amount) => ConsumedKeeps(s, id, amount);
  }

  lemma {:induction false} InvOverRuns(run: seq<Step>)
    ensures Inv(After(run))
  {
    if run != [] {
      var prefix, step := run[..|run| - 1], run[|run| - 1];
      InvOverRuns(prefix);
      if Enabled(After(prefix), step) {
        NextKeeps(After(prefix), step);
      }
    }
  }

  /** With the chain at rest in between, the machine's two steps for an event are what the
      consumer's method does. */
  lemma EventIsBuildThenWrite(s: State)
    requires Enabled(s, Build)
    ensures var t := Next(s, Build);
            var u := if t.built.Some? then Next(t, Write) else t;
            u == s.(table := AfterEvents(s.table, [s.queue[s.done]], [s.chain], 1), done := s.done + 1)
  {
    assert AfterEvents(s.table, [s.queue[s.done]], [s.chain], 0) == s.table;
  }

  // ---------- main results ----------

  /** In every reachable state, in the middle of a batch or after any number of crashes, a channel
      with no queued event whose latest change was told by a handled event agrees with the chain. */
  lemma QuietChannelAgrees(run: seq<Step>, id: Id)
    requires var s := After(run); id in s.chain && Quiet(s.queue, 0, id) && id !in s.untold
    ensures Agrees(After(run), id)
  {
    InvOverRuns(run);
    var s := After(run);
    assert Settled(s, id);
    assert Quiet(s.queue, s.done, id);
  }

  /** When the queue is drained and every latest change was told, the table is the chain. */
  lemma DrainedTableEqualsChain(run: seq<Step>)
    requires var s := After(run); s.queue == [] && s.untold == {}
    ensures var s := After(run); s.table.Keys == s.chain.Keys && forall id | id in s.chain :: Agrees(s, id)
  {
    var s := After(run);
    InvOverRuns(run);
    forall id | id in s.chain
      ensures Agrees(s, id)
    {
      QuietChannelAgrees(run, id);
    }
    assert forall id :: id in s.table.Keys <==> id in s.chain.Keys;
  }

  // ---------- the consumed balance ----------

  // The amount last written to the channel's row; 0 when none has been since there is one.
  function LastConsumed(run: seq<Step>, id: Id): int {
    if run == [] then 0
    else
      var prefix, step := run[..|run| - 1], run[|run| - 1];
      if step.UpdateConsumedBalance? && step.id == id && id in After(prefix).table then step.amount
      else LastConsumed(prefix, id)
  }

  /** Main result on the consumed balance: whatever events, crashes and redeliveries come in between,
      a row has the amount last written to it, and 0 before the first. */
  lemma {:induction false} ConsumedIsLastWritten(run: seq<Step>, id: Id)
    ensures id in After(run).table ==> After(run).table[id].consumed == LastConsumed(run, id)
    ensures id !in After(run).table ==> LastConsumed(run, id) == 0
  {
    if run != [] {
      var prefix, step := run[..|run| - 1], run[|run| - 1];
      ConsumedIsLastWritten(prefix, id);
    }
  }

  // ---------- changes no handled event tells of ----------

  /** The states reached from one; as before, steps that are not enabled do nothing. */
  function Continue(s: State, run: seq<Step>): State {
    if run == [] then s
    else
      var t, step := Continue(s, run[..|run| - 1]), run[|run| - 1];
      if Enabled(t, step) then Next(t, step) else t
  }

  lemma {:induction false} ContinueIsAfter(run: seq<Step>, more: seq<Step>)
    ensures Continue(After(run), more) == After(run + more)
  {
    if more == [] {
      assert run + more == run;
    } else {
      ContinueIsAfter(run, more[..|more| - 1]);
      assert (run + more)[..|run + more| - 1] == run + more[..|more| - 1];
    }
  }

  // What no step changes in a row.
  predicate SameKey(r: Row, q: Row) {
    r.sender == q.sender && r.signer == q.signer && r.recipient == q.recipient && r.groupId == q.groupId
  }

  lemma StepKeepsRow(s: State, step: Step, id: Id)
    requires id in s.table && Enabled(s, step)
    ensures id in Next(s, step).table && SameKey(Next(s, step).table[id], s.table[id])
  {
  }

  lemma {:induction false} ContinueKeepsRow(s: State, more: seq<Step>, id: Id)
    requires id in s.table
    ensures id in Continue(s, more).table && SameKey(Continue(s, more).table[id], s.table[id])
  {
    if more != [] {
      var t, step := Continue(s, more[..|more| - 1]), more[|more| - 1];
      ContinueKeepsRow(s, more[..|more| - 1], id);
      if Enabled(t, step) {
        StepKeepsRow(t, step, id);
      }
    }
  }

  /** No row is ever removed, and none changes its sender, signer, recipient or group. */
  lemma RowsStay(run: seq<Step>, more: seq<Step>, id: Id)
    requires id in After(run).table
    ensures id in After(run + more).table && SameKey(After(run + more).table[id], After(run).table[id])
  {
    ContinueIsAfter(run, more);
    ContinueKeepsRow(After(run), more, id);
  }

  // No step of the run is a told change of the channel.
  predicate Untold(run: seq<Step>, id: Id) {
    forall i | 0 <= i < |run| :: !(run[i].ChangeChannel? && run[i].id == id && run[i].told)
  }

  // The row is the same but for the consumed balance.
  predicate SameButConsumed(r: Row, q: Row) {
    r == q.(consumed := r.consumed)
  }

  // Nothing under way will write the channel's row.
  predicate Unheard(s: State, id: Id) {
    && id in s.chain && id in s.table
    && (s.built.Some? ==> s.built.value.channelId != id)
    && (forall i | 0 <= i < |s.queue| && s.queue[i].id == id :: s.queue[i].Unhandled?)
  }

  lemma QuietIsUnheard(run: seq<Step>, id: Id)
    requires var s := After(run); id in s.chain && Quiet(s.queue, 0, id) && id !in s.untold
    ensures Unheard(After(run), id)
  {
    QuietChannelAgrees(run, id);
    InvOverRuns(run);
  }

  lemma StepStaysUnheard(s: State, step: Step, id: Id)
    requires Unheard(s, id) && Enabled(s, step) && Untold([step], id)
    ensures Unheard(Next(s, step), id) && SameButConsumed(Next(s, step).table[id], s.table[id])
  {
    assert [step][0] == step;
  }

  lemma {:induction false} RunStaysUnheard(s: State, run: seq<Step>, id: Id)
    requires Unheard(s, id) && Untold(run, id)
    ensures Unheard(Continue(s, run), id) && SameButConsumed(Continue(s, run).table[id], s.table[id])
  {
    if run != [] {
      var n := |run| - 1;
      RunStaysUnheard(s, run[..n], id);
      assert [run[n]][0] == run[n];
      if Enabled(Continue(s, run[..n]), run[n]) {
        StepStaysUnheard(Continue(s, run[..n]), run[n], id);
      }
    }
  }

  lemma {:induction false} PartiesStay(s: State, run: seq<Step>, id: Id)
    requires id in s.chain
    ensures var t := Continue(s, run);
            id in t.chain && t.chain[id] == s.chain[id].(nonce := t.chain[id].nonce, value := t.chain[id].value,
                                                         expiration := t.chain[id].expiration)
  {
    if run != [] {
      PartiesStay(s, run[..|run| - 1], id);
    }
  }

  /** Main result on untold changes: from any reachable state in which a channel agrees and has no
      queued event, over any run without a told change of that channel, its row stays, so it agrees
      exactly when the chain record is what it was. The next told change ends this. */
  lemma UntoldChangesAreUnseenIff(run: seq<Step>, more: seq<Step>, id: Id)
    requires var s := After(run); id in s.chain && Quiet(s.queue, 0, id) && id !in s.untold
    requires Untold(more, id)
    ensures var s, t := After(run), After(run + more);
            && id in s.table && id in t.table && SameButConsumed(t.table[id], s.table[id])
            && id in t.chain && (Agrees(t, id) <==> t.chain[id] == s.chain[id])
  {
    QuietChannelAgrees(run, id);
    QuietIsUnheard(run, id);
    RunStaysUnheard(After(run), more, id);
    PartiesStay(After(run), more, id);
    ContinueIsAfter(run, more);
  }

  /** So from every reachable state at rest, an untold change leaves the table behind, and its event
      is consumed without effect. */
  lemma UntoldChangeIsLost(run: seq<Step>, id: Id, nonce: int, value: int, expiration: int)
    requires var s := After(run);
             s.queue == [] && s.batch == 0 && s.built.None? && id in s.chain && id !in s.untold
             && s.chain[id] != s.chain[id].(nonce := nonce, value := value, expiration := expiration)
    ensures var t := After(run + [ChangeChannel(id, nonce, value, expiration, false), Deliver(1), Build, Acknowledge]);
            t.queue == [] && t.batch == 0 && t.built.None? && id in t.chain && !Agrees(t, id)
  {
    var s, change := After(run), ChangeChannel(id, nonce, value, expiration, false);
    var lost := [change, Deliver(1), Build, Acknowledge];
    UntoldChangesAreUnseenIff(run, lost, id);
    ContinueIsAfter(run, lost);
    FourSteps(s, change, Deliver(1), Build, Acknowledge);
  }

  lemma {:induction false} StaysTold(s: State, run: seq<Step>, id: Id)
    requires id in s.chain && id !in s.untold
    requires forall i | 0 <= i < |run| :: !(run[i].ChangeChannel? && run[i].id == id && !run[i].told)
    ensures id in Continue(s, run).chain && id !in Continue(s, run).untold
  {
    if run != [] {
      StaysTold(s, run[..|run| - 1], id);
    }
  }

  /** The next told change of the channel restores it, whatever was lost before: once the queue has
      been drained after it, the channel agrees, unless a further untold change has come. */
  lemma {:induction false} ToldChangeRestores(run: seq<Step>, id: Id, nonce: int, value: int, expiration: int,
                                              more: seq<Step>)
    requires id in After(run).chain
    requires forall i | 0 <= i < |more| :: !(more[i].ChangeChannel? && more[i].id == id && !more[i].told)
    requires After(run + [ChangeChannel(id, nonce, value, expiration, true)] + more).queue == []
    ensures Agrees(After(run + [ChangeChannel(id, nonce, value, expiration, true)] + more), id)
  {
    var told := run + [ChangeChannel(id, nonce, value, expiration, true)];
    assert told[..|run|] == run;
    ContinueIsAfter(told, more);
    StaysTold(After(told), more, id);
    QuietChannelAgrees(told + more, id);
  }

  lemma FourSteps(s: State, a: Step, b: Step, c: Step, d: Step)
    requires Enabled(s, a) && Enabled(Next(s, a), b)
    requires Enabled(Next(Next(s, a), b), c) && Enabled(Next(Next(Next(s, a), b), c), d)
    ensures Continue(s, [a, b, c, d]) == Next(Next(Next(Next(s, a), b), c), d)
  {
    assert [a, b, c, d][..3] == [a, b, c] && [a, b, c][..2] == [a, b] && [a, b][..1] == [a] && [a][..0] == [];
    assert Continue(s, [a]) == Next(s, a);
    assert Continue(s, [a, b]) == Next(Next(s, a), b);
    assert Continue(s, [a, b, c]) == Next(Next(Next(s, a), b), c);
  }

  /** The group id stored from a ChannelOpen event is the one a re-read stores exactly when the
      event carries the raw bytes, for instance never when it carries their hexadecimal text. */
  lemma OpenGroupAgreesIff(id: Id, event: Channel, chain: Channel)
    ensures var fromEvent, fromChain := ConvertChannelToDomain(ChannelOpen(id, event)),
                                  GetChannelDataFromBlockchain(id, map[id := chain]);
            fromEvent.groupId == fromChain.groupId <==> event.groupId == chain.groupId
  {
    if Encode(event.groupId) == Encode(chain.groupId) {
      Injective(event.groupId, chain.groupId);
    }
  }
}

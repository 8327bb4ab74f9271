/** Runs of the endpoint health checker: sweeps, with other writers of the table in between. */
module EndpointRuns {
  import opened EndpointHealth
  import opened EndpointHistory

  // One sweep: the world it starts in, the SELECT's answer and what happens at each turn.
  datatype Round = Round(before: World, now: int, batch: seq<Record>, visits: seq<Visit>)

  ghost predicate ValidRound(r: Round, limit: nat) {
    OldestDue(r.before.endpoints, r.now, limit, r.batch) && |r.visits| == |r.batch|
  }

  function Outcome(r: Round): Progress
    requires |r.visits| == |r.batch|
  {
    AfterTurns(r.before, r.batch, r.visits, |r.batch|)
  }

  // ---------- what one sweep does to one row ----------

  // The probe of row `id` in one turn, if there is one.
  function ProbeOf(p: Progress, record: Record, v: Visit, id: RowId): seq<Probe> {
    if p.running && v.Probed? && record.id == id then [Probe(v.up, v.dbNow, v.appNow)] else []
  }

  /** The probes of row `id` during the first n turns of a sweep. */
  function ProbesIn(w: World, batch: seq<Record>, visits: seq<Visit>, n: nat, id: RowId): seq<Probe>
    requires n <= |batch| == |visits|
  {
    if n == 0 then []
    else ProbesIn(w, batch, visits, n - 1, id)
         + ProbeOf(AfterTurns(w, batch, visits, n - 1), batch[n - 1], visits[n - 1], id)
  }

  function EntriesOf(id: RowId, log: seq<LogEntry>): seq<LogEntry> {
    if log == [] then []
    else
      var last := log[|log| - 1];
      EntriesOf(id, log[..|log| - 1]) + if last.row == id then [last] else []
  }

  predicate LogsStored(visits: seq<Visit>) {
    forall i | 0 <= i < |visits| :: visits[i].Probed? ==> visits[i].logStored
  }

  predicate NoAlertRaises(visits: seq<Visit>) {
    forall i | 0 <= i < |visits| :: visits[i].Probed? ==> !visits[i].alertRaises
  }

  lemma EntriesOfAppend(id: RowId, log: seq<LogEntry>, e: LogEntry)
    ensures EntriesOf(id, log + [e]) == EntriesOf(id, log) + if e.row == id then [e] else []
  {
    assert (log + [e])[..|log|] == log;
  }

  lemma OneProbe(id: RowId, row: Endpoint, probe: Probe)
    ensures RunRow(row, [probe]) == VisitedRow(row, probe.up, probe.dbNow, probe.appNow)
    ensures RowLog(id, row, [probe]) == VisitedLog(id, row, probe.up)
    ensures AlertRounds(row, [probe]) == if Alerts(row, probe.up) then 1 else 0
  {
    assert [probe][..0] == [];
  }

  lemma TurnLogs(p: Progress, record: Record, v: Visit, id: RowId)
    requires p.running && v.Probed? && v.logStored
    ensures EntriesOf(id, VisitOne(p, record, v).world.log)
         == EntriesOf(id, p.world.log) + if record.id == id then VisitedLog(id, record.row, v.up) else []
  {
    var added := VisitedLog(record.id, record.row, v.up);
    if added != [] {
      assert VisitOne(p, record, v).world.log == p.world.log + [added[0]];
      EntriesOfAppend(id, p.world.log, added[0]);
    } else {
      assert VisitOne(p, record, v).world.log == p.world.log;
    }
  }

  // One turn moves every row, its log entries and its alerts by the probe it makes of that row.
  lemma TurnIsHistory(p: Progress, record: Record, v: Visit, id: RowId)
    requires id in p.world.endpoints && (record.id == id ==> record.row == p.world.endpoints[id])
    ensures var q, row, probe := VisitOne(p, record, v), p.world.endpoints[id], ProbeOf(p, record, v, id);
            && id in q.world.endpoints
            && q.world.endpoints[id] == RunRow(row, probe)
            && (v.Probed? && v.logStored ==>
                  EntriesOf(id, q.world.log) == EntriesOf(id, p.world.log) + RowLog(id, row, probe))
            && (v.Probed? && !v.alertRaises ==>
                  q.world.alerts[id] == p.world.alerts[id] + AlertRounds(row, probe))
            && (v.ProbeRaises? ==> q.world == p.world && probe == [])
  {
    if p.running && v.Probed? {
      if v.logStored {
        TurnLogs(p, record, v, id);
      }
      if record.id == id {
        OneProbe(id, record.row, Probe(v.up, v.dbNow, v.appNow));
      }
    }
  }

  // Rows whose turn has not come are as the SELECT read them.
  lemma {:induction false} StillToCome(w: World, batch: seq<Record>, visits: seq<Visit>, n: nat, id: RowId)
    requires n <= |batch| == |visits| && Snapshot(w.endpoints, batch)
    requires id in w.endpoints && forall i | 0 <= i < n :: batch[i].id != id
    ensures var t := AfterTurns(w, batch, visits, n).world.endpoints; id in t && t[id] == w.endpoints[id]
    ensures ProbesIn(w, batch, visits, n, id) == []
  {
    if n > 0 {
      StillToCome(w, batch, visits, n - 1, id);
    }
  }

  lemma Extend(id: RowId, row: Endpoint, history: seq<Probe>, more: seq<Probe>)
    requires |more| <= 1
    ensures RunRow(row, history + more) == RunRow(RunRow(row, history), more)
    ensures RowLog(id, row, history + more) == RowLog(id, row, history) + RowLog(id, RunRow(row, history), more)
    ensures AlertRounds(row, history + more) == AlertRounds(row, history) + AlertRounds(RunRow(row, history), more)
  {
    if more == [] {
      assert history + more == history;
    } else {
      assert (history + more)[..|history|] == history && more[..0] == [];
      assert more == [more[0]];
    }
  }

  /** What a sweep has done to a row, its log entries and its alerts is what the probes it made of
      that row do to it, whether or not the sweep finished. */
  ghost predicate IsHistory(id: RowId, w: World, w': World, probes: seq<Probe>, visits: seq<Visit>) {
    && id in w.endpoints && id in w'.endpoints
    && w'.endpoints[id] == RunRow(w.endpoints[id], probes)
    && (LogsStored(visits) ==>
          EntriesOf(id, w'.log) == EntriesOf(id, w.log) + RowLog(id, w.endpoints[id], probes))
    && (NoAlertRaises(visits) ==> w'.alerts[id] == w.alerts[id] + AlertRounds(w.endpoints[id], probes))
  }

  lemma {:induction false} SweepIsHistory(w: World, batch: seq<Record>, visits: seq<Visit>, n: nat, id: RowId)
    requires n <= |batch| == |visits| && Snapshot(w.endpoints, batch) && id in w.endpoints
    ensures IsHistory(id, w, AfterTurns(w, batch, visits, n).world, ProbesIn(w, batch, visits, n, id), visits)
    ensures |ProbesIn(w, batch, visits, n, id)| <= 1
  {
    if n == 0 {
      assert EntriesOf(id, w.log) + [] == EntriesOf(id, w.log);
    } else {
      SweepIsHistory(w, batch, visits, n - 1, id);
      var p, probes := AfterTurns(w, batch, visits, n - 1), ProbesIn(w, batch, visits, n - 1, id);
      var record, v := batch[n - 1], visits[n - 1];
      var more := ProbeOf(p, record, v, id);
      if record.id == id {
        StillToCome(w, batch, visits, n - 1, id);
      }
      TurnIsHistory(p, record, v, id);
      Extend(id, w.endpoints[id], probes, more);
      Compose(id, w, p.world, VisitOne(p, record, v).world, probes, more, visits);
    }
  }

  lemma Compose(id: RowId, w: World, w1: World, w2: World, probes: seq<Probe>, more: seq<Probe>, visits: seq<Visit>)
    requires |more| <= 1 && IsHistory(id, w, w1, probes, visits) && IsHistory(id, w1, w2, more, visits)
    ensures IsHistory(id, w, w2, probes + more, visits)
  {
    Extend(id, w.endpoints[id], probes, more);
  }

  // ---------- one row over a run ----------

  predicate SameHealth(e: Endpoint, f: Endpoint) {
    e.available == f.available && e.failures == f.failures
  }

  /** Successive sweeps. In between, others may insert, delete and edit rows (a health reset
      rewrites next_check_timestamp), but not the availability or the counter of row `id`, and
      not the log. */
  ghost predicate RunFor(rounds: seq<Round>, limit: nat, id: RowId) {
    rounds == [] ||
    var n := |rounds|;
    && RunFor(rounds[..n - 1], limit, id)
    && ValidRound(rounds[n - 1], limit) && id in rounds[n - 1].before.endpoints
    && (n > 1 ==> KeepsRow(rounds[n - 2], rounds[n - 1], id))
  }

  ghost predicate KeepsRow(r: Round, next: Round, id: RowId) {
    && |r.visits| == |r.batch|
    && var w := Outcome(r).world;
       && id in w.endpoints && id in next.before.endpoints
       && SameHealth(w.endpoints[id], next.before.endpoints[id])
       && next.before.log == w.log && next.before.alerts == w.alerts
  }

  ghost function Probes(rounds: seq<Round>, limit: nat, id: RowId): seq<Probe>
    requires RunFor(rounds, limit, id)
  {
    if rounds == [] then []
    else
      var r := rounds[|rounds| - 1];
      Probes(rounds[..|rounds| - 1], limit, id) + ProbesIn(r.before, r.batch, r.visits, |r.batch|, id)
  }

  // The same row up to its check times.
  ghost predicate MovedBy(id: RowId, w: World, w': World, probes: seq<Probe>, logged: bool, alerted: bool) {
    && id in w.endpoints && id in w'.endpoints
    && SameHealth(w'.endpoints[id], RunRow(w.endpoints[id], probes))
    && (logged ==> EntriesOf(id, w'.log) == EntriesOf(id, w.log) + RowLog(id, w.endpoints[id], probes))
    && (alerted ==> w'.alerts[id] == w.alerts[id] + AlertRounds(w.endpoints[id], probes))
  }

  lemma {:induction false} HealthOnly(e: Endpoint, f: Endpoint, id: RowId, history: seq<Probe>)
    requires SameHealth(e, f)
    ensures SameHealth(RunRow(e, history), RunRow(f, history))
    ensures RowLog(id, e, history) == RowLog(id, f, history)
    ensures AlertRounds(e, history) == AlertRounds(f, history)
  {
    if history != [] {
      HealthOnly(e, f, id, history[..|history| - 1]);
    }
  }

  lemma ComposeRounds(id: RowId, w: World, w1: World, w1': World, w2: World, probes: seq<Probe>, more: seq<Probe>,
                      logged: bool, alerted: bool)
    requires |more| <= 1 && MovedBy(id, w, w1, probes, logged, alerted)
    requires id in w1'.endpoints && SameHealth(w1.endpoints[id], w1'.endpoints[id])
    requires w1'.log == w1.log && w1'.alerts == w1.alerts
    requires MovedBy(id, w1', w2, more, logged, alerted)
    ensures MovedBy(id, w, w2, probes + more, logged, alerted)
  {
    var row := w.endpoints[id];
    Extend(id, row, probes, more);
    HealthOnly(w1'.endpoints[id], RunRow(row, probes), id, more);
  }

  predicate AllLogsStored(rounds: seq<Round>) {
    rounds == [] || (AllLogsStored(rounds[..|rounds| - 1]) && LogsStored(rounds[|rounds| - 1].visits))
  }

  predicate NoAlertsRaise(rounds: seq<Round>) {
    rounds == [] || (NoAlertsRaise(rounds[..|rounds| - 1]) && NoAlertRaises(rounds[|rounds| - 1].visits))
  }

  /** Over any run, finished sweeps or not, the stored row, its log entries (if the inserts
      succeed) and its alerts (if they do not raise) are what its own probes make of them. */
  lemma {:induction false} RunIsHistory(rounds: seq<Round>, limit: nat, id: RowId)
    requires rounds != [] && RunFor(rounds, limit, id)
    ensures ValidRound(rounds[|rounds| - 1], limit)
    ensures MovedBy(id, rounds[0].before, Outcome(rounds[|rounds| - 1]).world, Probes(rounds, limit, id),
                    AllLogsStored(rounds), NoAlertsRaise(rounds))
  {
    var n, logged, alerted := |rounds|, AllLogsStored(rounds), NoAlertsRaise(rounds);
    var r, prefix := rounds[n - 1], rounds[..n - 1];
    var more, w := ProbesIn(r.before, r.batch, r.visits, |r.batch|, id), Outcome(r).world;
    SweepIsHistory(r.before, r.batch, r.visits, |r.batch|, id);
    assert MovedBy(id, r.before, w, more, logged, alerted);
    if n == 1 {
      assert prefix == [] && [] + more == more;
    } else {
      RunIsHistory(prefix, limit, id);
      var w1 := Outcome(rounds[n - 2]).world;
      assert KeepsRow(rounds[n - 2], r, id);
      assert MovedBy(id, rounds[0].before, w1, Probes(prefix, limit, id), logged, alerted);
      ComposeRounds(id, rounds[0].before, w1, r.before, w, Probes(prefix, limit, id), more, logged, alerted);
    }
  }

  /** Main result on the counter: after any run from an available row, the stored count is the
      length of the failure run it is in, 0 right after a recovery and 1 on continued success. */
  lemma {:induction false} CounterOverRuns(rounds: seq<Round>, limit: nat, id: RowId)
    requires rounds != [] && RunFor(rounds, limit, id)
    requires id in rounds[0].before.endpoints && rounds[0].before.endpoints[id].available == Up
    requires Probes(rounds, limit, id) != []
    ensures ValidRound(rounds[|rounds| - 1], limit)
    ensures var t, probes := Outcome(rounds[|rounds| - 1]).world.endpoints, Probes(rounds, limit, id);
            var n := |probes|;
            && id in t && t[id].available == (if probes[n - 1].up then Up else Down)
            && t[id].failures ==
               (if !probes[n - 1].up then TrailingDowns(probes)
                else if n > 1 && !probes[n - 2].up then 0 else 1)
  {
    RunIsHistory(rounds, limit, id);
    CounterEqualsTrace(rounds[0].before.endpoints[id], Probes(rounds, limit, id));
  }

  lemma {:induction false} ChainsJoin(startUp: bool, log: seq<LogEntry>, more: seq<LogEntry>)
    requires Chained(startUp, log) && Chained(Replay(startUp, log), more)
    ensures Chained(startUp, log + more) && Replay(startUp, log + more) == Replay(Replay(startUp, log), more)
  {
    if more == [] {
      assert log + more == log;
    } else {
      var n := |more| - 1;
      ChainsJoin(startUp, log, more[..n]);
      assert (log + more)[..|log + more| - 1] == log + more[..n];
    }
  }

  /** Main result on the log: over any run whose inserts succeed, from a row whose availability is
      known and is what its earlier entries, if any, replay to, the entries alternate, each starting
      where its predecessor ended, and replaying them yields the stored availability. */
  lemma {:induction false} LogOverRuns(rounds: seq<Round>, limit: nat, id: RowId, startUp: bool)
    requires rounds != [] && RunFor(rounds, limit, id) && AllLogsStored(rounds)
    requires id in rounds[0].before.endpoints && rounds[0].before.endpoints[id].available != Unknown
    requires var log := EntriesOf(id, rounds[0].before.log);
             Chained(startUp, log) && Replay(startUp, log) == (rounds[0].before.endpoints[id].available == Up)
    ensures ValidRound(rounds[|rounds| - 1], limit)
    ensures var w := Outcome(rounds[|rounds| - 1]).world;
            && id in w.endpoints
            && Chained(startUp, EntriesOf(id, w.log))
            && Replay(startUp, EntriesOf(id, w.log)) == (w.endpoints[id].available == Up)
  {
    var row, probes := rounds[0].before.endpoints[id], Probes(rounds, limit, id);
    RunIsHistory(rounds, limit, id);
    LogChainsIff(id, row, probes);
    LogReplays(id, row, probes);
    ChainsJoin(startUp, EntriesOf(id, rounds[0].before.log), RowLog(id, row, probes));
  }

  /** Main result on the alerts: an outage of k failed probes has caused min(k, 10) rounds. */
  lemma {:induction false} AlertsOverRuns(rounds: seq<Round>, limit: nat, id: RowId)
    requires rounds != [] && RunFor(rounds, limit, id) && NoAlertsRaise(rounds)
    requires id in rounds[0].before.endpoints && rounds[0].before.endpoints[id].available != Down
    ensures ValidRound(rounds[|rounds| - 1], limit)
    ensures Outcome(rounds[|rounds| - 1]).world.alerts[id]
         == rounds[0].before.alerts[id] + TenPerOutage(Probes(rounds, limit, id))
  {
    RunIsHistory(rounds, limit, id);
    AlertsPerOutage(rounds[0].before.endpoints[id], Probes(rounds, limit, id));
  }

  // ---------- fairness ----------

  // The watched rows other than `id` that the SELECT may put before it.
  function Ahead(t: Table, id: RowId): set<RowId>
    requires id in t
  {
    set x | x in t && x != id && t[x].watched && t[x].lastCheck <= t[id].lastCheck
  }

  function Watched(t: Table): set<RowId> {
    set x | x in t && t[x].watched
  }

  // The database clock is past every stored check time when a row is updated.
  predicate ClockAdvances(t: Table, visits: seq<Visit>) {
    forall i, x | 0 <= i < |visits| && x in t :: visits[i].Probed? ==> visits[i].dbNow > t[x].lastCheck
  }

  ghost predicate FairRound(r: Round, limit: nat) {
    ValidRound(r, limit) && ClockAdvances(r.before.endpoints, r.visits)
  }

  /** What others may do to the table between sweeps: anything, so long as row `id` keeps its
      check time and nothing is moved in front of it. */
  predicate NoneOvertakes(t: Table, t': Table, id: RowId) {
    && id in t && id in t' && t'[id].lastCheck == t[id].lastCheck
    && forall x | x in t' && t'[x].watched ::
         || t'[x].lastCheck > t'[id].lastCheck
         || (x in t && t[x].watched && t[x].lastCheck <= t'[x].lastCheck)
  }

  // No sweep of the run gets to probe the row.
  predicate Unprobed(rounds: seq<Round>, id: RowId) {
    rounds == [] || (Unprobed(rounds[..|rounds| - 1], id) && ProbesDuring(rounds[|rounds| - 1], id) == 0)
  }

  /** Sweeps, finished or stopped by a raise, in which row `id` is due, and is not overtaken, until it
      is probed. */
  ghost predicate FairRun(rounds: seq<Round>, limit: nat, id: RowId) {
    rounds == [] ||
    var n := |rounds|;
    && FairRun(rounds[..n - 1], limit, id)
    && FairRound(rounds[n - 1], limit)
    && (Unprobed(rounds[..n - 1], id) ==>
          && id in DueRows(rounds[n - 1].before.endpoints, rounds[n - 1].now)
          && (n > 1 ==> NoneOvertakes(Outcome(rounds[n - 2]).world.endpoints, rounds[n - 1].before.endpoints, id)))
  }

  // How many sweeps of the run finish.
  function Finished(rounds: seq<Round>): nat {
    if rounds == [] then 0
    else
      var r := rounds[|rounds| - 1];
      Finished(rounds[..|rounds| - 1]) + if |r.visits| == |r.batch| && Outcome(r).running then 1 else 0
  }

  // The same rows, some of them stamped after `last`.
  predicate Stamped(t: Table, t': Table, last: int) {
    t.Keys == t'.Keys && forall x | x in t :: t'[x] == t[x] || t'[x].lastCheck > last
  }

  lemma TurnStamps(p: Progress, record: Record, v: Visit, last: int)
    requires record.id in p.world.endpoints && (v.Probed? ==> v.dbNow > last)
    ensures var q := VisitOne(p, record, v);
            && Stamped(p.world.endpoints, q.world.endpoints, last)
            && (q.running ==> p.running && q.world.endpoints[record.id].lastCheck > last)
  {
  }

  // A sweep only ever stamps rows.
  lemma {:induction false} SweepStamps(w: World, batch: seq<Record>, visits: seq<Visit>, n: nat, last: int)
    requires n <= |batch| == |visits| && Snapshot(w.endpoints, batch)
    requires forall i | 0 <= i < |visits| :: visits[i].Probed? ==> visits[i].dbNow > last
    ensures Stamped(w.endpoints, AfterTurns(w, batch, visits, n).world.endpoints, last)
  {
    if n > 0 {
      SweepStamps(w, batch, visits, n - 1, last);
      assert batch[n - 1].id in w.endpoints;
      TurnStamps(AfterTurns(w, batch, visits, n - 1), batch[n - 1], visits[n - 1], last);
    }
  }

  // While it is running it has stamped all rows whose turn has passed.
  lemma {:induction false} RunningSweepStamps(w: World, batch: seq<Record>, visits: seq<Visit>, n: nat, k: nat,
                                              last: int)
    requires k < n <= |batch| == |visits| && Snapshot(w.endpoints, batch) && AfterTurns(w, batch, visits, n).running
    requires forall i | 0 <= i < |visits| :: visits[i].Probed? ==> visits[i].dbNow > last
    ensures var t := AfterTurns(w, batch, visits, n).world.endpoints;
            batch[k].id in t && t[batch[k].id].lastCheck > last
  {
    SweepStamps(w, batch, visits, n - 1, last);
    assert batch[n - 1].id in w.endpoints && batch[k].id in w.endpoints;
    TurnStamps(AfterTurns(w, batch, visits, n - 1), batch[n - 1], visits[n - 1], last);
    if k < n - 1 {
      RunningSweepStamps(w, batch, visits, n - 1, k, last);
    }
  }

  lemma {:induction false} DistinctSize(t: Table, batch: seq<Record>, ids: set<RowId>)
    requires Snapshot(t, batch) && forall i | 0 <= i < |batch| :: batch[i].id in ids
    ensures |batch| <= |ids|
  {
    if batch != [] {
      var last := batch[|batch| - 1];
      DistinctSize(t, batch[..|batch| - 1], ids - {last.id});
    }
  }

  lemma SubsetSize(a: set<RowId>, b: set<RowId>)
    requires a <= b
    ensures |a| <= |b|
  {
    assert b == a + (b - a);
  }

  // A sweep that does not probe a due row puts nothing before it and, if it finishes, moves `limit`
  // rows from before it to behind it.
  lemma SkipMovesLimit(r: Round, limit: nat, id: RowId)
    requires FairRound(r, limit) && id in DueRows(r.before.endpoints, r.now) && ProbesDuring(r, id) == 0
    ensures var t, t' := r.before.endpoints, Outcome(r).world.endpoints;
            && id in t' && t'[id] == t[id]
            && |Ahead(t', id)| + (if Outcome(r).running then limit else 0) <= |Ahead(t, id)|
  {
    var t, t' := r.before.endpoints, Outcome(r).world.endpoints;
    SweepIsHistory(r.before, r.batch, r.visits, |r.batch|, id);
    assert t'[id] == t[id];
    SweepStamps(r.before, r.batch, r.visits, |r.batch|, t[id].lastCheck);
    assert Ahead(t', id) <= Ahead(t, id);
    if Outcome(r).running {
      FinishedSweepMoves(r, limit, id);
    } else {
      SubsetSize(Ahead(t', id), Ahead(t, id));
    }
  }

  lemma FinishedSweepMoves(r: Round, limit: nat, id: RowId)
    requires FairRound(r, limit) && id in DueRows(r.before.endpoints, r.now) && ProbesDuring(r, id) == 0
    requires Outcome(r).running && id in Outcome(r).world.endpoints
    requires Outcome(r).world.endpoints[id] == r.before.endpoints[id]
    requires Ahead(Outcome(r).world.endpoints, id) <= Ahead(r.before.endpoints, id)
    ensures |Ahead(Outcome(r).world.endpoints, id)| + limit <= |Ahead(r.before.endpoints, id)|
  {
    var t, t' := r.before.endpoints, Outcome(r).world.endpoints;
    if Holds(r.batch, id) {
      var k :| 0 <= k < |r.batch| && r.batch[k].id == id;
      ProbedOnce(r.before, r.batch, r.visits, |r.batch|, k);
    }
    assert |r.batch| == limit;
    var moved := Ahead(t, id) - Ahead(t', id);
    forall i | 0 <= i < |r.batch|
      ensures r.batch[i].id in moved
    {
      assert Holds(r.batch, r.batch[i].id);
      RunningSweepStamps(r.before, r.batch, r.visits, |r.batch|, i, t[id].lastCheck);
    }
    DistinctSize(t, r.batch, moved);
    assert Ahead(t, id) == Ahead(t', id) + moved;
  }

  lemma OvertakenNever(t: Table, t': Table, id: RowId)
    requires NoneOvertakes(t, t', id)
    ensures |Ahead(t', id)| <= |Ahead(t, id)|
  {
    assert Ahead(t', id) <= Ahead(t, id);
    SubsetSize(Ahead(t', id), Ahead(t, id));
  }

  // How many rows k skipping sweeps move.
  function Moved(k: nat, limit: nat): nat {
    if k == 0 then 0 else Moved(k - 1, limit) + limit
  }

  lemma {:induction false} MovedIsProduct(k: nat, limit: nat)
    ensures Moved(k, limit) == k * limit
  {
    if k > 0 {
      MovedIsProduct(k - 1, limit);
    }
  }

  // What a run in which the row is not probed says about its last sweep.
  lemma LastFairRound(rounds: seq<Round>, limit: nat, id: RowId)
    requires rounds != [] && FairRun(rounds, limit, id) && Unprobed(rounds, id)
    ensures var n := |rounds|;
            var r, prefix := rounds[n - 1], rounds[..n - 1];
            && FairRun(prefix, limit, id) && Unprobed(prefix, id)
            && FairRound(r, limit) && ProbesDuring(r, id) == 0 && id in DueRows(r.before.endpoints, r.now)
            && (n > 1 ==> FairRound(rounds[n - 2], limit)
                          && NoneOvertakes(Outcome(rounds[n - 2]).world.endpoints, r.before.endpoints, id))
            && Finished(rounds) == Finished(prefix) + if Outcome(r).running then 1 else 0
  {
  }

  // Of the rows before it at first, `done` finished sweeps have moved their share.
  predicate HasMoved(t0: Table, t: Table, done: nat, limit: nat, id: RowId) {
    && id in t0 && t0[id].watched && id in t
    && |Ahead(t, id)| + Moved(done, limit) <= |Ahead(t0, id)|
  }

  lemma FirstSkip(r: Round, limit: nat, id: RowId)
    requires FairRound(r, limit) && id in DueRows(r.before.endpoints, r.now) && ProbesDuring(r, id) == 0
    ensures HasMoved(r.before.endpoints, Outcome(r).world.endpoints, if Outcome(r).running then 1 else 0, limit, id)
  {
    SkipMovesLimit(r, limit, id);
    assert Moved(1, limit) == Moved(0, limit) + limit;
  }

  lemma NextSkip(t0: Table, t: Table, done: nat, r: Round, limit: nat, id: RowId)
    requires HasMoved(t0, t, done, limit, id) && NoneOvertakes(t, r.before.endpoints, id)
    requires FairRound(r, limit) && id in DueRows(r.before.endpoints, r.now) && ProbesDuring(r, id) == 0
    ensures HasMoved(t0, Outcome(r).world.endpoints, done + if Outcome(r).running then 1 else 0, limit, id)
  {
    SkipMovesLimit(r, limit, id);
    OvertakenNever(t, r.before.endpoints, id);
  }

  lemma {:induction false} SkipsAddUp(rounds: seq<Round>, limit: nat, id: RowId)
    requires rounds != [] && FairRun(rounds, limit, id) && Unprobed(rounds, id)
    ensures FairRound(rounds[|rounds| - 1], limit)
    ensures HasMoved(rounds[0].before.endpoints, Outcome(rounds[|rounds| - 1]).world.endpoints, Finished(rounds),
                     limit, id)
  {
    var n := |rounds|;
    var r, prefix := rounds[n - 1], rounds[..n - 1];
    LastFairRound(rounds, limit, id);
    if n == 1 {
      FirstSkip(r, limit, id);
    } else {
      SkipsAddUp(prefix, limit, id);
      assert prefix[n - 2] == rounds[n - 2] && prefix[0] == rounds[0];
      NextSkip(rounds[0].before.endpoints, Outcome(rounds[n - 2]).world.endpoints, Finished(prefix), r, limit, id);
    }
  }

  lemma {:induction false} ProbedOnce(w: World, batch: seq<Record>, visits: seq<Visit>, n: nat, k: nat)
    requires k < n <= |batch| == |visits| && Snapshot(w.endpoints, batch) && AfterTurns(w, batch, visits, n).running
    ensures |ProbesIn(w, batch, visits, n, batch[k].id)| == 1
  {
    if n - 1 == k {
      StillToCome(w, batch, visits, k, batch[k].id);
    } else {
      ProbedOnce(w, batch, visits, n - 1, k);
    }
  }

  lemma {:induction false} SomeSweepProbes(rounds: seq<Round>, limit: nat, id: RowId) returns (i: nat)
    requires FairRun(rounds, limit, id) && !Unprobed(rounds, id)
    ensures i < |rounds| && ProbesDuring(rounds[i], id) == 1
  {
    var n := |rounds|;
    var r := rounds[n - 1];
    if Unprobed(rounds[..n - 1], id) {
      SweepIsHistory(r.before, r.batch, r.visits, |r.batch|, id);
      i := n - 1;
    } else {
      i := SomeSweepProbes(rounds[..n - 1], limit, id);
    }
  }

  /** Main result on the scheduler: with N watched rows and an advancing clock, a row that stays due
      is probed, once, by some sweep of any run in which (N-1)/limit + 1 sweeps finish, however many
      are stopped by a raise in between. */
  lemma {:induction false} NoStarvation(rounds: seq<Round>, limit: nat, id: RowId)
    requires limit >= 1 && rounds != [] && FairRun(rounds, limit, id)
    requires Finished(rounds) >= (|Watched(rounds[0].before.endpoints)| - 1) / limit + 1
    ensures exists i :: 0 <= i < |rounds| && ProbesDuring(rounds[i], id) == 1
  {
    if Unprobed(rounds, id) {
      SkipsAddUp(rounds, limit, id);
      TooFewAhead(rounds[0].before.endpoints, limit, id, Finished(rounds));
    } else {
      var i := SomeSweepProbes(rounds, limit, id);
    }
  }

  lemma TooFewAhead(t: Table, limit: nat, id: RowId, sweeps: nat)
    requires limit >= 1 && id in Watched(t) && sweeps >= (|Watched(t)| - 1) / limit + 1
    ensures |Ahead(t, id)| < Moved(sweeps, limit)
  {
    assert Ahead(t, id) <= Watched(t) - {id};
    SubsetSize(Ahead(t, id), Watched(t) - {id});
    var enough: nat := (|Watched(t)| - 1) / limit + 1;
    DivisionBound(|Watched(t)| - 1, limit);
    MovedIsProduct(enough, limit);
    MovedGrows(enough, sweeps, limit);
  }

  lemma {:induction false} MovedGrows(m: nat, n: nat, limit: nat)
    requires m <= n
    ensures Moved(m, limit) <= Moved(n, limit)
  {
    if m < n {
      MovedGrows(m, n - 1, limit);
    }
  }

  lemma DivisionBound(a: nat, b: nat)
    requires b >= 1
    ensures (a / b + 1) * b > a
  {
  }

  // How often a sweep probes row `id`.
  function ProbesDuring(r: Round, id: RowId): nat {
    if |r.visits| == |r.batch| then |ProbesIn(r.before, r.batch, r.visits, |r.batch|, id)| else 0
  }

  // Sweeps with nobody else writing the table.
  ghost predicate Successive(rounds: seq<Round>, limit: nat) {
    rounds == [] ||
    var n := |rounds|;
    && Successive(rounds[..n - 1], limit)
    && ValidRound(rounds[n - 1], limit)
    && (n > 1 ==> rounds[n - 1].before == Outcome(rounds[n - 2]).world && rounds[n - 2].now <= rounds[n - 1].now)
  }

  // The count a probe computes from the row as the SELECT read it.
  function CountAfter(row: Endpoint, probe: Probe): nat {
    if !probe.up && row.available == Down then row.failures + 1 else 1
  }

  // The row is next due after `when`.
  predicate Rests(t: Table, id: RowId, when: int) {
    id in t && t[id].nextCheck == when
  }

  lemma ProbedRowRests(r: Round, limit: nat, id: RowId, probe: Probe)
    requires ValidRound(r, limit) && id in r.before.endpoints
    requires ProbesIn(r.before, r.batch, r.visits, |r.batch|, id) == [probe]
    ensures Rests(Outcome(r).world.endpoints, id,
                  probe.appNow + 3600 * Hours(CountAfter(r.before.endpoints[id], probe)))
  {
    SweepIsHistory(r.before, r.batch, r.visits, |r.batch|, id);
    OneProbe(id, r.before.endpoints[id], probe);
    DelayIsHours(CountAfter(r.before.endpoints[id], probe));
  }

  lemma UnprobedRowRests(r: Round, limit: nat, id: RowId, when: int)
    requires ValidRound(r, limit) && Rests(r.before.endpoints, id, when) && ProbesDuring(r, id) == 0
    ensures Rests(Outcome(r).world.endpoints, id, when)
  {
    SweepIsHistory(r.before, r.batch, r.visits, |r.batch|, id);
  }

  lemma SuccessiveStep(rounds: seq<Round>, limit: nat)
    requires Successive(rounds, limit) && |rounds| >= 2
    ensures var n := |rounds|;
            && Successive(rounds[..n - 1], limit)
            && ValidRound(rounds[n - 2], limit) && ValidRound(rounds[n - 1], limit)
            && rounds[n - 1].before == Outcome(rounds[n - 2]).world
  {
    var n := |rounds|;
    assert rounds[..n - 1] != [] && rounds[..n - 1][n - 2] == rounds[n - 2];
  }

  // Round i probes the row, and no later round before the last does.
  ghost predicate ProbedLastIn(rounds: seq<Round>, id: RowId, i: nat, probe: Probe) {
    && i + 1 < |rounds| && |rounds[i].visits| == |rounds[i].batch| && id in rounds[i].before.endpoints
    && ProbesIn(rounds[i].before, rounds[i].batch, rounds[i].visits, |rounds[i].batch|, id) == [probe]
    && forall j | i < j < |rounds| - 1 :: ProbesDuring(rounds[j], id) == 0
  }

  lemma ProbedLastInShorter(rounds: seq<Round>, id: RowId, i: nat, probe: Probe)
    requires ProbedLastIn(rounds, id, i, probe) && i + 2 < |rounds|
    ensures ProbedLastIn(rounds[..|rounds| - 1], id, i, probe) && ProbesDuring(rounds[|rounds| - 2], id) == 0
  {
  }

  lemma {:induction false} RestingRow(rounds: seq<Round>, limit: nat, id: RowId, i: nat, probe: Probe, when: int)
    requires Successive(rounds, limit) && ProbedLastIn(rounds, id, i, probe)
    requires when == probe.appNow + 3600 * Hours(CountAfter(rounds[i].before.endpoints[id], probe))
    ensures Rests(rounds[|rounds| - 1].before.endpoints, id, when)
  {
    var n := |rounds|;
    var prefix, r := rounds[..n - 1], rounds[n - 2];
    SuccessiveStep(rounds, limit);
    assert rounds[n - 1].before == Outcome(r).world;
    if i + 2 == n {
      ProbedRowRests(r, limit, id, probe);
    } else {
      ProbedLastInShorter(rounds, id, i, probe);
      assert prefix[i] == rounds[i] && prefix[n - 2] == r;
      RestingRow(prefix, limit, id, i, probe, when);
      UnprobedRowRests(r, limit, id, when);
    }
  }

  /** Main result on the back-off: with nobody else writing the table, a row probed in round i is in
      no later sweep's batch, until it is probed again, before its hours have passed since the
      application's time of the probe: 1, 2, 4, 8, 16 and then 12 hours by the count. Afterwards it is,
      if it is watched and the batch is not full. */
  lemma RestsAfterProbe(rounds: seq<Round>, limit: nat, id: RowId, i: nat, probe: Probe)
    requires Successive(rounds, limit) && ProbedLastIn(rounds, id, i, probe)
    ensures var last, count := rounds[|rounds| - 1], CountAfter(rounds[i].before.endpoints[id], probe);
            var hours := if count == 1 then 1 else if count == 2 then 2 else if count == 3 then 4
                         else if count == 4 then 8 else if count == 5 then 16 else 12;
            && id in last.before.endpoints
            && (Holds(last.batch, id) ==> last.now > probe.appNow + 3600 * hours)
            && (!Holds(last.batch, id) ==> last.now <= probe.appNow + 3600 * hours
                                           || !last.before.endpoints[id].watched || |last.batch| == limit)
  {
    RestingRow(rounds, limit, id, i, probe,
               probe.appNow + 3600 * Hours(CountAfter(rounds[i].before.endpoints[id], probe)));
    SuccessiveStep(rounds, limit);
  }

  // The probe of row `id` raises whenever its turn comes.
  predicate Poisoned(r: Round, id: RowId) {
    forall j | 0 <= j < |r.batch| && j < |r.visits| :: r.batch[j].id == id ==> r.visits[j].ProbeRaises?
  }

  predicate StrictlyOldest(t: Table, now: int, id: RowId) {
    id in DueRows(t, now) && forall x | x in t && t[x].watched && x != id :: t[x].lastCheck > t[id].lastCheck
  }

  lemma PoisonedSweep(r: Round, limit: nat, id: RowId)
    requires limit >= 1 && ValidRound(r, limit) && Poisoned(r, id)
    requires StrictlyOldest(r.before.endpoints, r.now, id)
    ensures Outcome(r) == Progress(r.before, 0, false)
  {
    assert r.batch != [] && r.batch[0].id == id;
    assert AfterTurns(r.before, r.batch, r.visits, 0) == Progress(r.before, 0, true);
    assert AfterTurns(r.before, r.batch, r.visits, 1) == Progress(r.before, 0, false);
    StoppedStays(r.before, r.batch, r.visits, 1, |r.batch|);
  }

  /** Finishing is needed: while the probe of the oldest due row raises, every sweep stops at
      its first turn and no row of the table is ever probed or updated. */
  lemma {:induction false} PoisonedHeadStarvesAll(rounds: seq<Round>, limit: nat, id: RowId)
    requires limit >= 1 && rounds != [] && Successive(rounds, limit)
    requires StrictlyOldest(rounds[0].before.endpoints, rounds[0].now, id)
    requires forall i | 0 <= i < |rounds| :: Poisoned(rounds[i], id)
    ensures ValidRound(rounds[|rounds| - 1], limit) && rounds[0].now <= rounds[|rounds| - 1].now
    ensures Outcome(rounds[|rounds| - 1]) == Progress(rounds[0].before, 0, false)
  {
    var n := |rounds|;
    if n > 1 {
      PoisonedHeadStarvesAll(rounds[..n - 1], limit, id);
    }
    PoisonedSweep(rounds[n - 1], limit, id);
  }
}

/** One endpoint row under any history of probes: what the counter, the back-off, the outage
    log and the alerts have to do with the history. */
module EndpointHistory {
  import opened EndpointHealth

  // A probe that got as far as the UPDATE.
  datatype Probe = Probe(up: bool, dbNow: int, appNow: int)

  function RunRow(row: Endpoint, history: seq<Probe>): Endpoint {
    if history == [] then row
    else
      var last := history[|history| - 1];
      VisitedRow(RunRow(row, history[..|history| - 1]), last.up, last.dbNow, last.appNow)
  }

  // ---------- the failure counter ----------

  function TrailingDowns(history: seq<Probe>): (k: nat)
    ensures k <= |history|
  {
    if history == [] || history[|history| - 1].up then 0 else 1 + TrailingDowns(history[..|history| - 1])
  }

  function AvailabilityBefore(row: Endpoint, history: seq<Probe>): Availability
    requires history != []
  {
    if |history| == 1 then row.available else Status(history[|history| - 2].up)
  }

  /** The counter is a function of the history: the length of the failure run the endpoint is in
      (plus what was stored, if the row was down from the start), 0 right after a recovery, 1 on
      continued success. */
  lemma {:induction false} CounterEqualsTrace(row: Endpoint, history: seq<Probe>)
    requires history != []
    ensures var r, last := RunRow(row, history), history[|history| - 1];
            && r.available == (if last.up then Up else Down) && r.lastCheck == last.dbNow && r.watched == row.watched
            && (last.up ==> r.failures == if AvailabilityBefore(row, history) == Up then 1 else 0)
            && (!last.up && TrailingDowns(history) < |history| ==> r.failures == TrailingDowns(history))
            && (!last.up && TrailingDowns(history) == |history| ==>
                  r.failures == |history| + if row.available == Down then row.failures else 0)
  {
    var prefix := history[..|history| - 1];
    if prefix != [] {
      CounterEqualsTrace(row, prefix);
    }
  }

  // ---------- the alerts ----------

  function AlertRounds(row: Endpoint, history: seq<Probe>): nat {
    if history == [] then 0
    else
      var prefix := history[..|history| - 1];
      AlertRounds(row, prefix) + if Alerts(RunRow(row, prefix), history[|history| - 1].up) then 1 else 0
  }

  function Min(a: nat, b: nat): nat {
    if a <= b then a else b
  }

  // Ten rounds at most for each maximal run of failures.
  function TenPerOutage(history: seq<Probe>): nat {
    if history == [] then 0
    else if history[|history| - 1].up then TenPerOutage(history[..|history| - 1])
    else TenPerOutage(history[..|history| - TrailingDowns(history)]) + Min(TrailingDowns(history), 10)
  }

  /** From a row that is not down, an outage of k failed probes causes min(k, 10) rounds. */
  lemma {:induction false} AlertsPerOutage(row: Endpoint, history: seq<Probe>)
    requires row.available != Down
    ensures AlertRounds(row, history) == TenPerOutage(history)
  {
    if history != [] {
      var n := |history|;
      var prefix := history[..n - 1];
      AlertsPerOutage(row, prefix);
      CounterEqualsTrace(row, history);
      if !history[n - 1].up {
        assert TrailingDowns(history) == 1 + TrailingDowns(prefix);
        assert history[..n - TrailingDowns(history)] == prefix[..|prefix| - TrailingDowns(prefix)];
        TrailingDownsSplit(prefix);
        var count := CalculateFailedStatusCount(false, RunRow(row, prefix).available, RunRow(row, prefix).failures);
        assert count == RunRow(row, history).failures == TrailingDowns(history);
      }
    }
  }

  lemma TrailingDownsSplit(history: seq<Probe>)
    ensures TenPerOutage(history) ==
            TenPerOutage(history[..|history| - TrailingDowns(history)]) + Min(TrailingDowns(history), 10)
  {
    if TrailingDowns(history) == 0 {
      assert history[..|history|] == history;
    }
  }

  // ---------- the outage log ----------

  function RowLog(id: RowId, row: Endpoint, history: seq<Probe>): seq<LogEntry> {
    if history == [] then []
    else
      var prefix := history[..|history| - 1];
      RowLog(id, row, prefix) + VisitedLog(id, RunRow(row, prefix), history[|history| - 1].up)
  }

  // Each entry changes the state, and starts in the state its predecessor ended in.
  predicate Chained(startUp: bool, log: seq<LogEntry>) {
    log == [] ||
    var prefix, last := log[..|log| - 1], log[|log| - 1];
    Chained(startUp, prefix) && last.previousUp == Replay(startUp, prefix) && last.currentUp != last.previousUp
  }

  function Replay(startUp: bool, log: seq<LogEntry>): bool {
    if log == [] then startUp else log[|log| - 1].currentUp
  }

  /** Replaying the log always yields the current availability. */
  lemma {:induction false} LogReplays(id: RowId, row: Endpoint, history: seq<Probe>)
    ensures Replay(row.available == Up, RowLog(id, row, history)) == (RunRow(row, history).available == Up)
  {
    if history != [] {
      LogReplays(id, row, history[..|history| - 1]);
    }
  }

  lemma ChainedOneMore(startUp: bool, log: seq<LogEntry>, e: LogEntry)
    ensures Chained(startUp, log + [e]) <==>
            Chained(startUp, log) && e.previousUp == Replay(startUp, log) && e.currentUp != e.previousUp
  {
    assert (log + [e])[..|log|] == log;
  }

  lemma KnownAfterProbe(row: Endpoint, history: seq<Probe>)
    ensures RunRow(row, history).available == Unknown <==> history == [] && row.available == Unknown
  {
  }

  /** The entries form an alternating chain exactly when the row's first availability is known
      or its first probe answers: a NULL row whose first probe fails logs DOWN to DOWN. */
  lemma {:induction false} LogChainsIff(id: RowId, row: Endpoint, history: seq<Probe>)
    ensures Chained(row.available == Up, RowLog(id, row, history)) <==>
            (row.available != Unknown || history == [] || history[0].up)
  {
    if history != [] {
      var prefix, up := history[..|history| - 1], history[|history| - 1].up;
      var before, r := RowLog(id, row, prefix), RunRow(row, prefix);
      LogChainsIff(id, row, prefix);
      LogReplays(id, row, prefix);
      KnownAfterProbe(row, prefix);
      if r.available != Status(up) {
        ChainedOneMore(row.available == Up, before, LogEntry(id, r.available == Up, up));
      } else {
        assert RowLog(id, row, history) == before;
      }
    }
  }

  // ---------- the back-off ----------

  lemma DelayBounds(count: nat, minimum: nat, maximum: nat)
    requires count >= 1 && minimum <= maximum
    ensures minimum <= DelayInHours(count, minimum, maximum)
    ensures DelayInHours(count, minimum, maximum) <= if 16 * minimum <= maximum then maximum else 16 * minimum
  {
    if count < 6 {
      assert Pow2(4) == 16 && Pow2(3) == 8 && Pow2(2) == 4 && Pow2(1) == 2 && Pow2(0) == 1;
      assert Pow2(count - 1) == 1 || Pow2(count - 1) == 2 || Pow2(count - 1) == 4
          || Pow2(count - 1) == 8 || Pow2(count - 1) == 16;
    }
  }

  // The delays a history schedules, added up.
  function TotalDelay(row: Endpoint, history: seq<Probe>): int {
    if history == [] then 0
    else
      TotalDelay(row, history[..|history| - 1])
      + RunRow(row, history).nextCheck - history[|history| - 1].appNow
  }

  lemma {:induction false} BackOffSum(row: Endpoint, outage: seq<Probe>)
    requires row.available != Down
    requires forall i | 0 <= i < |outage| :: !outage[i].up
    ensures var k := |outage|;
            TotalDelay(row, outage) == 3600 * if k <= 5 then Pow2(k) - 1 else 31 + 12 * (k - 5)
  {
    if outage != [] {
      var k := |outage|;
      var prefix := outage[..k - 1];
      BackOffSum(row, prefix);
      AllDown(outage);
      CounterEqualsTrace(row, outage);
      if k == 6 {
        assert Pow2(5) == 32;
      }
      var last := outage[k - 1];
      var r := RunRow(row, prefix);
      assert CalculateFailedStatusCount(false, r.available, r.failures) == k;
      assert RunRow(row, outage).nextCheck - last.appNow == 3600 * DelayInHours(k, 1, 12);
    }
  }

  lemma {:induction false} AllDown(outage: seq<Probe>)
    requires forall i | 0 <= i < |outage| :: !outage[i].up
    ensures TrailingDowns(outage) == |outage|
  {
    if outage != [] {
      AllDown(outage[..|outage| - 1]);
    }
  }
}

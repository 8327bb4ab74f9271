/** The endpoint health checker (service_status/service_status.py): one sweep probes the
    least recently checked due endpoints and updates, for each, a failure counter, an
    exponential back-off, an outage log and the alert mails. */
module EndpointHealth {

  type RowId = int

  // The is_available column is nullable.
  datatype Availability = Unknown | Up | Down

  /** A row of service_endpoint. `watched` says that the service is curated and the address
      is not private, the two row conditions of the SELECT that a sweep does not change. */
  datatype Endpoint = Endpoint(watched: bool, available: Availability,
                               lastCheck: int, nextCheck: int, failures: nat)

  type Table = map<RowId, Endpoint>

  datatype LogEntry = LogEntry(row: RowId, previousUp: bool, currentUp: bool)

  /** What the outside world does while one row is handled: the probe answers or its error
      handler raises; the database and the application read their clocks; the insert into the
      log succeeds or is swallowed; after a failed probe the notification code may raise. */
  datatype Visit =
    | ProbeRaises
    | Probed(up: bool, dbNow: int, appNow: int, logStored: bool, alertRaises: bool)

  datatype World = World(endpoints: Table, log: seq<LogEntry>, alerts: multiset<RowId>)

  // How far a sweep came: the rows it counted as updated and whether it is still running.
  datatype Progress = Progress(world: World, updated: nat, running: bool)

  const MINIMUM_INTERVAL_IN_HOUR := 1
  const MAXIMUM_INTERVAL_IN_HOUR := 12
  const SECONDS_PER_HOUR := 3600

  // ---------- one row ----------

  function Status(up: bool): Availability {
    if up then Up else Down
  }

  function CalculateFailedStatusCount(up: bool, was: Availability, oldCount: nat): (count: nat)
    ensures count >= 1
  {
    if !up && was == Down then oldCount + 1 else 1
  }

  function Pow2(n: nat): (p: nat)
    ensures p >= 1
  {
    if n == 0 then 1 else 2 * Pow2(n - 1)
  }

  function DelayInHours(count: int, minimum: nat, maximum: nat): nat
    requires count >= 1
  {
    if count < 6 then minimum * Pow2(count - 1) else maximum
  }

  /** The hours to the next check, by the count: doubling five times, then half a day. */
  function Hours(count: nat): nat {
    match count
    case 0 => 1
    case 1 => 1
    case 2 => 2
    case 3 => 4
    case 4 => 8
    case 5 => 16
    case _ => 12
  }

  lemma DelayIsHours(count: nat)
    requires count >= 1
    ensures DelayInHours(count, MINIMUM_INTERVAL_IN_HOUR, MAXIMUM_INTERVAL_IN_HOUR) == Hours(count)
  {
    assert Pow2(4) == 16 && Pow2(3) == 8 && Pow2(2) == 4 && Pow2(1) == 2 && Pow2(0) == 1;
  }

  function NextCheck(count: int, appNow: int): int
    requires count >= 1
  {
    appNow + SECONDS_PER_HOUR * DelayInHours(count, MINIMUM_INTERVAL_IN_HOUR, MAXIMUM_INTERVAL_IN_HOUR)
  }

  /** The row after a probe. A recovery overwrites the counter with 0 in a second UPDATE, after
      the back-off was computed from the count 1. */
  function VisitedRow(row: Endpoint, up: bool, dbNow: int, appNow: int): Endpoint {
    var count := CalculateFailedStatusCount(up, row.available, row.failures);
    Endpoint(row.watched, Status(up), dbNow, NextCheck(count, appNow),
             if up && row.available != Up then 0 else count)
  }

  function VisitedLog(id: RowId, row: Endpoint, up: bool): seq<LogEntry> {
    if row.available != Status(up) then [LogEntry(id, row.available == Up, up)] else []
  }

  predicate Alerts(row: Endpoint, up: bool) {
    !up && CalculateFailedStatusCount(up, row.available, row.failures) <= 10
  }

  // ---------- the sweep ----------

  predicate Due(e: Endpoint, now: int) {
    e.watched && e.nextCheck < now
  }

  // A row as the SELECT returned it.
  datatype Record = Record(id: RowId, row: Endpoint)

  function DueRows(t: Table, now: int): set<RowId> {
    set id | id in t && Due(t[id], now)
  }

  // Distinct rows, as the table holds them.
  ghost predicate Snapshot(t: Table, batch: seq<Record>) {
    && (forall i | 0 <= i < |batch| :: batch[i].id in t && batch[i].row == t[batch[i].id])
    && (forall i, j | 0 <= i < j < |batch| :: batch[i].id != batch[j].id)
  }

  predicate Holds(batch: seq<Record>, id: RowId) {
    exists i | 0 <= i < |batch| :: batch[i].id == id
  }

  /** What the SELECT may return: of the watched rows whose next check lies before `now`, the `limit`
      least recently checked, oldest first; ties may fall either way. */
  ghost predicate OldestDue(t: Table, now: int, limit: nat, batch: seq<Record>) {
    && Snapshot(t, batch)
    && (forall i | 0 <= i < |batch| :: batch[i].row.watched && batch[i].row.nextCheck < now)
    && |batch| <= limit
    && (|batch| < limit ==> forall id | id in t && t[id].watched && t[id].nextCheck < now :: Holds(batch, id))
    && (forall i, j | 0 <= i < j < |batch| :: batch[i].row.lastCheck <= batch[j].row.lastCheck)
    && (forall i, id | 0 <= i < |batch| && id in t && t[id].watched && t[id].nextCheck < now && !Holds(batch, id) ::
          batch[i].row.lastCheck <= t[id].lastCheck)
  }

  /** One turn of the loop, over a record read before the loop started. A turn that raises after its
      UPDATE leaves the row written but not counted. */
  function VisitOne(p: Progress, record: Record, v: Visit): Progress {
    if !p.running then p
    else if v.ProbeRaises? then p.(running := false)
    else
      var id, row := record.id, record.row;
      var w := World(p.world.endpoints[id := VisitedRow(row, v.up, v.dbNow, v.appNow)],
                     p.world.log + (if v.logStored then VisitedLog(id, row, v.up) else []),
                     p.world.alerts + (if Alerts(row, v.up) && !v.alertRaises then multiset{id} else multiset{}));
      if v.up || !v.alertRaises then Progress(w, p.updated + 1, true) else Progress(w, p.updated, false)
  }

  /** The world after the first n turns of a sweep over `batch`. */
  function AfterTurns(w: World, batch: seq<Record>, visits: seq<Visit>, n: nat): Progress
    requires n <= |batch| == |visits|
  {
    if n == 0 then Progress(w, 0, true)
    else VisitOne(AfterTurns(w, batch, visits, n - 1), batch[n - 1], visits[n - 1])
  }

  /** The service: three tables and the sweep. */
  class ServiceStatus {
    var endpoints: Table
    var log: seq<LogEntry>
    var alerts: multiset<RowId>

    constructor (endpoints: Table)
      ensures View() == World(endpoints, [], multiset{})
    {
      this.endpoints := endpoints;
      log := [];
      alerts := multiset{};
    }

    function View(): World
      reads this
    {
      World(endpoints, log, alerts)
    }

    /** The SELECT with ORDER BY last_check_timestamp and LIMIT. */
    method GetServiceEndpointData(now: int, limit: nat) returns (batch: seq<Record>)
      ensures OldestDue(endpoints, now, limit, batch)
    {
      var rest := DueRows(endpoints, now);
      batch := [];
      while |batch| < limit && rest != {}
        invariant |batch| <= limit && rest <= DueRows(endpoints, now) && Snapshot(endpoints, batch)
        invariant forall i | 0 <= i < |batch| :: Due(batch[i].row, now) && batch[i].id !in rest
        invariant forall id | id in DueRows(endpoints, now) :: id in rest || Holds(batch, id)
        invariant forall i, j | 0 <= i < j < |batch| :: batch[i].row.lastCheck <= batch[j].row.lastCheck
        invariant forall i, id | 0 <= i < |batch| && id in rest :: batch[i].row.lastCheck <= endpoints[id].lastCheck
      {
        OldestExists(endpoints, rest);
        var x :| x in rest && forall y | y in rest :: endpoints[x].lastCheck <= endpoints[y].lastCheck;
        var longer := batch + [Record(x, endpoints[x])];
        assert longer[|batch|].id == x;
        forall id | Holds(batch, id)
          ensures Holds(longer, id)
        {
          var i :| 0 <= i < |batch| && batch[i].id == id;
          assert longer[i].id == id;
        }
        rest := rest - {x};
        batch := longer;
      }
    }

    /** The body of the loop: probe one endpoint, then write its row, the log and the alerts. */
    method CheckEndpoint(record: Record, v: Visit, before: nat) returns (updated: nat, running: bool)
      modifies this
      ensures v.ProbeRaises? ==> View() == old(View()) && updated == before && !running
      ensures v.Probed? ==>
                var id, was := record.id, record.row.available;
                var count := if !v.up && was == Down then record.row.failures + 1 else 1;
                && endpoints == old(endpoints)[id :=
                     Endpoint(record.row.watched, if v.up then Up else Down, v.dbNow, v.appNow + 3600 * Hours(count),
                              if v.up && was != Up then 0 else count)]
                && log == old(log) + (if v.logStored && was != (if v.up then Up else Down)
                                      then [LogEntry(id, was == Up, v.up)] else [])
                && alerts == old(alerts) + (if !v.up && count <= 10 && !v.alertRaises
                                            then multiset{id} else multiset{})
                && running == (v.up || !v.alertRaises) && updated == before + if running then 1 else 0
      ensures Progress(View(), updated, running) == VisitOne(Progress(old(View()), before, true), record, v)
    {
      updated, running := before, true;
      if v.ProbeRaises? {
        running := false;
        return;
      }
      var id, oldStatus, status := record.id, record.row.available, Status(v.up);
      var count := CalculateFailedStatusCount(v.up, oldStatus, record.row.failures);
      DelayIsHours(count);
      var row := Endpoint(record.row.watched, status, v.dbNow, NextCheck(count, v.appNow), count);
      if oldStatus != status {
        if v.logStored {
          log := log + [LogEntry(id, oldStatus == Up, v.up)];
        }
        if v.up {
          row := row.(failures := 0);
        }
      }
      endpoints := endpoints[id := row];
      if !v.up {
        if v.alertRaises {
          running := false;
          return;
        }
        if count <= 10 {
          alerts := alerts + multiset{id};
        }
      }
      updated := before + 1;
    }

    /** The sweep. `visits` is what the outside world does at each turn. */
    method UpdateServiceStatus(batch: seq<Record>, visits: seq<Visit>) returns (updated: nat, finished: bool)
      requires |visits| == |batch|
      modifies this
      ensures Progress(View(), updated, finished) == AfterTurns(old(View()), batch, visits, |batch|)
    {
      ghost var start := View();
      updated, finished := 0, true;
      var i := 0;
      while i < |batch| && finished
        invariant 0 <= i <= |batch|
        invariant Progress(View(), updated, finished) == AfterTurns(start, batch, visits, i)
      {
        updated, finished := CheckEndpoint(batch[i], visits[i], updated);
        i := i + 1;
      }
      StoppedStays(start, batch, visits, i, |batch|);
    }
  }

  lemma {:induction false} OldestExists(t: Table, ids: set<RowId>)
    requires ids != {} && ids <= t.Keys
    ensures exists x :: x in ids && forall y | y in ids :: t[x].lastCheck <= t[y].lastCheck
  {
    if forall a :: a !in ids {
      assert false;
    }
    var a :| a in ids;
    var rest := ids - {a};
    if rest == {} {
      assert ids == {a};
    } else {
      OldestExists(t, rest);
      var b :| b in rest && forall y | y in rest :: t[b].lastCheck <= t[y].lastCheck;
      var x := if t[a].lastCheck <= t[b].lastCheck then a else b;
      assert forall y | y in ids :: t[x].lastCheck <= t[y].lastCheck;
    }
  }

  lemma {:induction false} StoppedStays(w: World, batch: seq<Record>, visits: seq<Visit>, i: nat, n: nat)
    requires i <= n <= |batch| == |visits|
    ensures !AfterTurns(w, batch, visits, i).running ==>
              AfterTurns(w, batch, visits, n) == AfterTurns(w, batch, visits, i)
  {
    if i < n {
      StoppedStays(w, batch, visits, i, n - 1);
    }
  }

  // The turn raises: in the probe, or in the notification after a failed one.
  predicate Raises(v: Visit) {
    v.ProbeRaises? || (!v.up && v.alertRaises)
  }

  /** A sweep whose first raising turn is number k counts k rows and stops there; if none raises, it
      finishes and counts all its rows. */
  lemma {:induction false} SweepCount(w: World, batch: seq<Record>, visits: seq<Visit>, n: nat, k: nat)
    requires k <= n <= |batch| == |visits|
    requires (forall j | 0 <= j < k :: !Raises(visits[j])) && (k < n ==> Raises(visits[k]))
    ensures AfterTurns(w, batch, visits, n).updated == k
    ensures AfterTurns(w, batch, visits, n).running <==> k == n
  {
    if n > 0 {
      SweepCount(w, batch, visits, n - 1, if k == n then n - 1 else k);
    }
  }
}

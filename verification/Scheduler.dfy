/** Report schedules: one row per report, regenerated in batches of twenty, the earliest first. */
module Scheduler {
  import opened Wrappers
  import Text

  // ---------- time ----------

  /** Time in microseconds since midnight UTC of some day. */
  type Time = int

  const HOUR := 3_600_000_000
  const DAY := 24 * HOUR
  const LIMIT := 20

  datatype Frequency = Hourly | Daily | Weekly | Monthly

  function ParseFrequency(text: string): Option<Frequency>
  {
    var freq := Text.Lower(text);
    if freq == "hourly" then Some(Hourly)
    else if freq == "daily" then Some(Daily)
    else if freq == "weekly" then Some(Weekly)
    else if freq == "monthly" then Some(Monthly)
    else None
  }

  /** Hourly snaps to the top of the next hour, a month is thirty days. */
  function NextRun(frequency: Frequency, from: Time): (next: Time)
    ensures from < next <= from + 30 * DAY
  {
    match frequency
    case Hourly => from - from % HOUR + HOUR
    case Daily => from + DAY
    case Weekly => from + 7 * DAY
    case Monthly => from + 30 * DAY
  }

  // ---------- the table ----------

  datatype Row = Row(frequency: Frequency, enabled: bool, nextRun: Time, lastRun: Option<Time>,
                     lastError: Option<string>)

  type Table = map<string, Row>

  predicate Due(table: Table, id: string, now: Time)
  {
    id in table && table[id].enabled && table[id].nextRun <= now
  }

  function DueSet(table: Table, now: Time): set<string>
  {
    set id | id in table && Due(table, id, now)
  }

  /** What the query for due rows may return: distinct due rows, the earliest first, all of them or
      twenty; rows with equal times come in any order. */
  ghost predicate IsBatch(table: Table, now: Time, batch: seq<string>)
  {
    (forall i, j :: 0 <= i < j < |batch| ==> batch[i] != batch[j])
    && (forall i :: 0 <= i < |batch| ==> Due(table, batch[i], now))
    && (forall i, j :: 0 <= i < j < |batch| ==> table[batch[i]].nextRun <= table[batch[j]].nextRun)
    && |batch| <= LIMIT
    && (forall id :: Due(table, id, now) && id !in batch ==>
          |batch| == LIMIT && forall i :: 0 <= i < |batch| ==> table[batch[i]].nextRun <= table[id].nextRun)
  }

  /** A regeneration succeeds, or leaves an error on the row. */
  type Regenerate = string -> Option<string>

  function Advanced(row: Row, now: Time, error: Option<string>): Row
  {
    row.(nextRun := NextRun(row.frequency, now), lastRun := Some(now), lastError := error)
  }

  function AfterPass(table: Table, batch: seq<string>, now: Time, regenerate: Regenerate): Table
  {
    map id | id in table :: if id in batch then Advanced(table[id], now, regenerate(id)) else table[id]
  }

  function AfterSchedule(table: Table, id: string, frequency: Frequency, now: Time): Table
  {
    var next := NextRun(frequency, now);
    table[id := if id in table then table[id].(frequency := frequency, enabled := true, nextRun := next)
                else Row(frequency, true, next, None, None)]
  }

  class ReportSchedules {
    var table: Table

    constructor ()
      ensures table == map[]
    {
      table := map[];
    }

    /** Create or replace the schedule of a report; an unknown frequency is refused. */
    method ScheduleReport(id: string, frequency: string, now: Time) returns (accepted: bool)
      modifies this
      ensures accepted == ParseFrequency(frequency).Some?
      ensures table
              == if accepted then AfterSchedule(old(table), id, ParseFrequency(frequency).value, now) else old(table)
    {
      var freq := ParseFrequency(frequency);
      if freq.None? {
        return false;
      }
      var next := NextRun(freq.value, now);
      var row := if id in table then table[id].(frequency := freq.value, enabled := true, nextRun := next)
                 else Row(freq.value, true, next, None, None);
      table := table[id := row];
      accepted := true;
    }

    method UnscheduleReport(id: string) returns (existed: bool)
      modifies this
      ensures existed == (id in old(table)) && table == old(table) - {id}
    {
      existed := id in table;
      table := table - {id};
    }

    /** One pass over the due rows that the query returned. */
    method RunDueSchedules(now: Time, due: seq<string>, regenerate: Regenerate) returns (processed: nat)
      requires IsBatch(table, now, due)
      modifies this
      ensures table == AfterPass(old(table), due, now, regenerate) && processed == |due|
    {
      processed := 0;
      ghost var before := table;
      for i := 0 to |due|
        invariant processed == i
        invariant table == AfterPass(before, due[..i], now, regenerate)
      {
        var id := due[i];
        assert id !in due[..i];
        assert due[..i + 1] == due[..i] + [id];
        table := table[id := Advanced(table[id], now, regenerate(id))];
        processed := processed + 1;
      }
      assert due[..|due|] == due;
    }
  }

  // ---------- how far apart runs are ----------

  const MINUTE := 60_000_000

  /** The next run of an hourly schedule is the first full hour behind now; that of any other comes a day, a week
      or thirty days after now, to the microsecond. */
  lemma {:induction false} RunsAreSpaced(frequency: Frequency, now: Time)
    ensures var next := NextRun(frequency, now);
            match frequency
            case Hourly =>
              next % (60 * MINUTE) == 0 && now < next && forall t :: now < t < next ==> t % (60 * MINUTE) != 0
            case Daily => next - now == 24 * 60 * MINUTE
            case Weekly => next - now == 7 * 24 * 60 * MINUTE
            case Monthly => next - now == 30 * 24 * 60 * MINUTE
  {
    if frequency.Hourly? {
      var next := NextRun(frequency, now);
      FullHour(now / HOUR);
      assert now == HOUR * (now / HOUR) + now % HOUR;
      assert next == HOUR * (now / HOUR + 1);
      forall t | now < t < next ensures t % (60 * MINUTE) != 0 {
        NotFull(t, now / HOUR);
      }
    }
  }

  lemma {:induction false} FullHour(k: int)
    ensures HOUR * (k + 1) % HOUR == 0
  {
  }

  lemma {:induction false} NotFull(t: int, k: int)
    requires HOUR * k < t < HOUR * (k + 1)
    ensures t % HOUR != 0
  {
    assert t == HOUR * (t / HOUR) + t % HOUR;
  }

  /** An accepted frequency is one of four words in any case. */
  lemma {:induction false} FrequenciesAreWords(text: string)
    ensures var f, word := ParseFrequency(text), Text.Lower(text);
            (f == Some(Hourly) <==> word == "hourly") && (f == Some(Daily) <==> word == "daily")
            && (f == Some(Weekly) <==> word == "weekly") && (f == Some(Monthly) <==> word == "monthly")
  {
    assert "hourly"[0] == 'h' && "daily"[0] == 'd' && "weekly"[0] == 'w' && "monthly"[0] == 'm';
  }

  /** A scheduled report is enabled and due at its next run, keeps what it knows of its last run, and no other
      schedule changes. */
  lemma {:induction false} ScheduleDoes(table: Table, id: string, frequency: Frequency, now: Time)
    ensures var t := AfterSchedule(table, id, frequency, now);
            id in t && t[id].frequency == frequency && t[id].enabled && t[id].nextRun == NextRun(frequency, now)
            && (if id in table then t[id].lastRun == table[id].lastRun && t[id].lastError == table[id].lastError
                else t[id].lastRun == None && t[id].lastError == None)
            && forall other :: other != id ==>
                 (other in t <==> other in table) && (other in t ==> t[other] == table[other])
  {
  }

  /** A pass marks each of its reports as run now, with the error its regeneration left, if any, and due again
      one period later; no other schedule changes. */
  lemma {:induction false} PassDoes(table: Table, batch: seq<string>, now: Time, regenerate: Regenerate)
    ensures var t := AfterPass(table, batch, now, regenerate);
            t.Keys == table.Keys
            && forall id :: id in table ==>
                 if id !in batch then t[id] == table[id]
                 else t[id].lastRun == Some(now) && t[id].lastError == regenerate(id)
                      && t[id].frequency == table[id].frequency && t[id].enabled == table[id].enabled
                      && t[id].nextRun == NextRun(table[id].frequency, now)
  {
  }

  /** A pass takes enabled reports whose time has come, at most twenty; whoever has to wait though its time has
      come stands behind twenty that are no later. */
  lemma {:induction false} BatchTakes(table: Table, now: Time, batch: seq<string>, id: string)
    requires IsBatch(table, now, batch) && id in table
    ensures |batch| <= 20
    ensures id in batch ==> table[id].enabled && table[id].nextRun <= now
    ensures table[id].enabled && table[id].nextRun <= now && id !in batch ==>
              |batch| == 20 && forall other :: other in batch ==>
                other in table && table[other].nextRun <= table[id].nextRun
  {
    assert forall i :: 0 <= i < |batch| ==> Due(table, batch[i], now);
  }

  // ---------- a batch always exists ----------

  /** Some row of a non-empty set of due rows comes no later than the others. */
  lemma {:induction false} Earliest(table: Table, ids: set<string>) returns (first: string)
    requires ids != {} && forall id :: id in ids ==> id in table
    ensures first in ids && forall id :: id in ids ==> table[first].nextRun <= table[id].nextRun
    decreases |ids|
  {
    first :| first in ids;
    if ids != {first} {
      var other := Earliest(table, ids - {first});
      if table[other].nextRun < table[first].nextRun {
        first := other;
      }
    }
  }

  /** The first n rows of a set in the order of their times, and what is left over. */
  lemma {:induction false} Select(table: Table, ids: set<string>, n: nat) returns (batch: seq<string>)
    requires forall id :: id in ids ==> id in table
    ensures |batch| == if |ids| <= n then |ids| else n
    ensures forall i :: 0 <= i < |batch| ==> batch[i] in ids
    ensures forall i, j :: 0 <= i < j < |batch| ==> batch[i] != batch[j]
    ensures forall i, j :: 0 <= i < j < |batch| ==> table[batch[i]].nextRun <= table[batch[j]].nextRun
    ensures forall id :: id in ids && id !in batch ==>
              |batch| == n && forall i :: 0 <= i < |batch| ==> table[batch[i]].nextRun <= table[id].nextRun
  {
    if ids == {} || n == 0 {
      batch := [];
    } else {
      var first := Earliest(table, ids);
      var rest := Select(table, ids - {first}, n - 1);
      batch := [first] + rest;
      assert forall i :: 1 <= i < |batch| ==> batch[i] == rest[i - 1];
    }
  }

  /** Whatever the table and the time, the query has an answer. */
  lemma {:induction false} BatchExists(table: Table, now: Time) returns (batch: seq<string>)
    ensures IsBatch(table, now, batch)
  {
    batch := Select(table, DueSet(table, now), LIMIT);
    forall id | Due(table, id, now) ensures id in DueSet(table, now) {
    }
  }

  // ---------- runs of the scheduler ----------

  datatype World = World(now: Time, table: Table)

  datatype Event =
    | Tick(dt: nat)
    | Pass(batch: seq<string>, regenerate: Regenerate)
    | Schedule(id: string, frequency: Frequency)
    | Unschedule(id: string)

  ghost predicate Legal(w: World, e: Event)
  {
    e.Pass? ==> IsBatch(w.table, w.now, e.batch)
  }

  function Act(w: World, e: Event): World
  {
    match e
    case Tick(dt) => w.(now := w.now + dt)
    case Pass(batch, regenerate) => w.(table := AfterPass(w.table, batch, w.now, regenerate))
    case Schedule(id, frequency) => w.(table := AfterSchedule(w.table, id, frequency, w.now))
    case Unschedule(id) => w.(table := w.table - {id})
  }

  /** A legal run in which nobody schedules or unschedules this report. */
  ghost predicate LegalRun(w: World, run: seq<Event>, report: string)
    decreases run
  {
    run == []
    || (Legal(w, run[0])
        && (run[0].Schedule? || run[0].Unschedule? ==> run[0].id != report)
        && LegalRun(Act(w, run[0]), run[1..], report))
  }

  function Passes(run: seq<Event>): nat
  {
    if run == [] then 0 else (if run[0].Pass? then 1 else 0) + Passes(run[1..])
  }

  predicate Processed(run: seq<Event>, report: string)
  {
    run != [] && ((run[0].Pass? && report in run[0].batch) || Processed(run[1..], report))
  }

  /** The other enabled rows that the query may put before this one: those at or before its time. */
  function Ahead(table: Table, report: string): set<string>
    requires report in table
  {
    set id | id in table && id != report && table[id].enabled && table[id].nextRun <= table[report].nextRun
  }

  /** Those it must put before this one. */
  function Before(table: Table, report: string): set<string>
    requires report in table
  {
    set id | id in table && table[id].enabled && table[id].nextRun < table[report].nextRun
  }

  function Elements(batch: seq<string>): set<string>
  {
    set id | id in batch
  }

  lemma {:induction false} ElementsCount(batch: seq<string>)
    requires forall i, j :: 0 <= i < j < |batch| ==> batch[i] != batch[j]
    ensures |Elements(batch)| == |batch|
  {
    if batch != [] {
      var n := |batch| - 1;
      ElementsCount(batch[..n]);
      assert Elements(batch) == Elements(batch[..n]) + {batch[n]};
    }
  }

  /** A pass that leaves a due report out takes twenty rows from ahead of it and puts them behind. */
  lemma {:induction false} PassShortensQueue(w: World, batch: seq<string>, regenerate: Regenerate, report: string)
    requires IsBatch(w.table, w.now, batch) && Due(w.table, report, w.now) && report !in batch
    ensures var table := AfterPass(w.table, batch, w.now, regenerate);
            Due(table, report, w.now) && |Ahead(table, report)| + LIMIT == |Ahead(w.table, report)|
  {
    var table := AfterPass(w.table, batch, w.now, regenerate);
    ElementsCount(batch);
    forall id | id in batch ensures id in Ahead(w.table, report) {
      var i :| 0 <= i < |batch| && batch[i] == id;
    }
    assert Ahead(table, report) == Ahead(w.table, report) - Elements(batch);
    assert Elements(batch) <= Ahead(w.table, report);
    CountDifference(Ahead(w.table, report), Elements(batch));
  }

  lemma {:induction false} CountDifference(a: set<string>, b: set<string>)
    requires b <= a
    ensures |a - b| == |a| - |b|
  {
    assert a == (a - b) + b;
  }

  /** No other event lengthens the queue ahead of a due report: whoever schedules now lands after now. */
  lemma {:induction false} QueueNeverGrows(w: World, e: Event, report: string)
    requires Due(w.table, report, w.now) && !e.Pass? && (e.Schedule? || e.Unschedule? ==> e.id != report)
    ensures Due(Act(w, e).table, report, Act(w, e).now)
    ensures |Ahead(Act(w, e).table, report)| <= |Ahead(w.table, report)|
  {
    assert Ahead(Act(w, e).table, report) <= Ahead(w.table, report);
    CountSubset(Ahead(Act(w, e).table, report), Ahead(w.table, report));
  }

  lemma {:induction false} CountSubset(a: set<string>, b: set<string>)
    requires a <= b
    ensures |a| <= |b|
  {
    CountDifference(b, a);
  }

  lemma {:induction false} UnprocessedQueue(w: World, run: seq<Event>, report: string)
    requires Due(w.table, report, w.now) && LegalRun(w, run, report) && !Processed(run, report)
    ensures LIMIT * Passes(run) <= |Ahead(w.table, report)|
    decreases run
  {
    if run != [] {
      var w' := Act(w, run[0]);
      match run[0] {
        case Pass(batch, regenerate) => PassShortensQueue(w, batch, regenerate, report);
        case _ => QueueNeverGrows(w, run[0], report);
      }
      UnprocessedQueue(w', run[1..], report);
    }
  }

  /** No starvation: a due report with k rows at or before its time is processed within any
      ceil((k + 1) / 20) passes, whatever else is scheduled or unscheduled meanwhile, however ties are
      ordered, and whichever regenerations fail. */
  lemma {:induction false} NoStarvation(w: World, run: seq<Event>, report: string)
    requires Due(w.table, report, w.now) && LegalRun(w, run, report)
    requires LIMIT * Passes(run) > |Ahead(w.table, report)|
    ensures Processed(run, report)
  {
    if !Processed(run, report) {
      UnprocessedQueue(w, run, report);
    }
  }

  // ---------- and not sooner ----------

  /** A batch holds a row only together with every row that comes strictly before it. */
  lemma {:induction false} BatchTakesPrefix(w: World, batch: seq<string>, report: string)
    requires IsBatch(w.table, w.now, batch) && Due(w.table, report, w.now) && report in batch
    ensures |Before(w.table, report)| < LIMIT
  {
    var k :| 0 <= k < |batch| && batch[k] == report;
    ElementsCount(batch);
    forall id | id in Before(w.table, report) ensures id in batch {
      assert Due(w.table, id, w.now);
    }
    assert Before(w.table, report) <= Elements(batch) - {report};
    CountSubset(Before(w.table, report), Elements(batch) - {report});
  }

  predicate OnlyPasses(run: seq<Event>)
  {
    forall i :: 0 <= i < |run| ==> run[i].Pass? || run[i].Tick?
  }

  lemma {:induction false} PassTakesAtMostTwenty(w: World, batch: seq<string>, regenerate: Regenerate, report: string)
    requires IsBatch(w.table, w.now, batch) && Due(w.table, report, w.now) && report !in batch
    ensures var table := AfterPass(w.table, batch, w.now, regenerate);
            Due(table, report, w.now) && |Before(table, report)| >= |Before(w.table, report)| - LIMIT
  {
    var table := AfterPass(w.table, batch, w.now, regenerate);
    ElementsCount(batch);
    assert Before(w.table, report) <= Before(table, report) + Elements(batch);
    CountSubset(Before(w.table, report), Before(table, report) + Elements(batch));
    CountUnion(Before(table, report), Elements(batch));
  }

  lemma {:induction false} CountUnion(a: set<string>, b: set<string>)
    ensures |a + b| <= |a| + |b|
  {
    CountDifference(a + b, a);
    assert a + b - a <= b;
    CountSubset(a + b - a, b);
  }

  /** With k rows strictly before it, a due report waits for at least floor(k / 20) passes: the bound of
      NoStarvation cannot be improved. */
  lemma {:induction false} NotSooner(w: World, run: seq<Event>, report: string)
    requires Due(w.table, report, w.now) && LegalRun(w, run, report) && OnlyPasses(run)
    requires LIMIT * Passes(run) <= |Before(w.table, report)|
    ensures !Processed(run, report)
    decreases run
  {
    if run != [] {
      if run[0].Pass? && report in run[0].batch {
        BatchTakesPrefix(w, run[0].batch, report);
      } else {
        if run[0].Pass? {
          PassTakesAtMostTwenty(w, run[0].batch, run[0].regenerate, report);
        }
        NotSooner(Act(w, run[0]), run[1..], report);
      }
    }
  }
}

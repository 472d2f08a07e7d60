/** Histories of chat runs over one query cache, and what the browser makes of a run's events. */
module ChatHistory {
  import opened Wrappers
  import opened ChatPipeline
  import opened ChatService
  import opened EventStream

  // ---------- only masked rows travel ----------

  /** A run of either kind, or a cached row set that expires or is evicted. */
  datatype Visit =
    | Ask(streaming: bool, i: Input, o: Outcomes, source: string -> Try<Rows>)
    | Forget(key: string)

  function EnvOf(cached: map<string, Rows>, v: Visit, normal: string -> string, mask: Rows -> Rows): Env
    requires v.Ask?
  {
    Env(cached, v.source, normal, mask)
  }

  function LogOf(env: Env, v: Visit): seq<Action>
    requires v.Ask?
  {
    if v.streaming then Stream(v.i, v.o, env) else Sync(v.i, v.o, env).log
  }

  function CachedAfter(history: seq<Visit>, normal: string -> string, mask: Rows -> Rows): map<string, Rows>
  {
    if history == [] then map[] else
    var cached := CachedAfter(history[..|history| - 1], normal, mask);
    match history[|history| - 1]
    case Forget(key) => cached - {key}
    case Ask(_, _, _, _) =>
      var env := EnvOf(cached, history[|history| - 1], normal, mask);
      CacheOf(env, LogOf(env, history[|history| - 1]))
  }

  /** The SQL that a run executes, if it does. */
  function RunSql(o: Outcomes): string
  {
    if o.validate.Returned? && o.generate.Returned? && o.generate.value.sql.Some?
    then Or(o.validate.value.validatedSql, o.generate.value.sql.value)
    else ""
  }

  /** A run over this cache executed a query with this key, and these rows are what the source returned
      for it, masked. */
  ghost predicate Gave(cached: map<string, Rows>, v: Visit, normal: string -> string, mask: Rows -> Rows, key: string,
                       rows: Rows)
    requires v.Ask?
  {
    var sql := RunSql(v.o);
    Execute(sql) in LogOf(EnvOf(cached, v, normal, mask), v) && normal(sql) == key
    && v.source(sql).Returned? && rows == mask(v.source(sql).value)
  }

  /** Visit j of the history gave these rows. */
  ghost predicate GaveAt(history: seq<Visit>, j: nat, normal: string -> string, mask: Rows -> Rows, key: string,
                         rows: Rows)
  {
    j < |history| && history[j].Ask?
    && Gave(CachedAfter(history[..j], normal, mask), history[j], normal, mask, key, rows)
  }

  ghost predicate CameFrom(history: seq<Visit>, normal: string -> string, mask: Rows -> Rows, key: string, rows: Rows)
  {
    exists j :: GaveAt(history, j, normal, mask, key, rows)
  }

  /** Every cached row set is the masked answer to a query of some run under the same key. */
  ghost predicate AllCameFrom(history: seq<Visit>, normal: string -> string, mask: Rows -> Rows,
                              cached: map<string, Rows>)
  {
    forall key :: key in cached ==> CameFrom(history, normal, mask, key, cached[key])
  }

  lemma {:induction false} SameBeginning(history: seq<Visit>, v: Visit, j: nat)
    requires j < |history|
    ensures (history + [v])[..j] == history[..j] && (history + [v])[j] == history[j]
  {
  }

  lemma {:induction false} LongerHistory(history: seq<Visit>, v: Visit, normal: string -> string, mask: Rows -> Rows,
                                         key: string, rows: Rows)
    requires CameFrom(history, normal, mask, key, rows)
    ensures CameFrom(history + [v], normal, mask, key, rows)
  {
    var j :| GaveAt(history, j, normal, mask, key, rows);
    SameBeginning(history, v, j);
    assert GaveAt(history + [v], j, normal, mask, key, rows);
  }

  lemma {:induction false} WorkIsDone(log: seq<Action>, a: Action)
    ensures a in Work(log) <==> a in log && !a.Persist? && !a.Emit?
  {
    if log != [] {
      WorkIsDone(log[1..], a);
    }
  }

  /** The rows an action hands to an agent. */
  function Shown(a: Action): Option<Rows>
  {
    match a
    case ToChart(rows) => Some(rows)
    case ToNarrative(rows) => Some(rows)
    case _ => None
  }

  /** What is shown is the result of the run's execution, and nothing else is ever executed. */
  lemma {:induction false} GatedShows(work: seq<Action>, i: Input, o: Outcomes, env: Env, a: Action)
    requires MayDo(work, i, o, env) && a in work
    ensures Shown(a).Some? ==> ExecuteResult(env, RunSql(o)).rows == Shown(a) && Execute(RunSql(o)) in work
    ensures a.Execute? ==> a.sql == RunSql(o)
  {
    var j :| 0 <= j < |work| && work[j] == a;
    if Shown(a).Some? {
      assert j >= 2 && work[1] == Execute(RunSql(o));
    }
  }

  lemma {:induction false} RunExecutes(env: Env, v: Visit, a: Action)
    requires v.Ask? && a in LogOf(env, v)
    ensures Shown(a).Some? ==>
              ExecuteResult(env, RunSql(v.o)).rows == Shown(a) && Execute(RunSql(v.o)) in LogOf(env, v)
    ensures a.Execute? ==> a.sql == RunSql(v.o)
  {
    var log := LogOf(env, v);
    RunsAreGated(v.i, v.o, env);
    WorkIsDone(log, a);
    WorkIsDone(log, Execute(RunSql(v.o)));
    if a in Work(log) {
      GatedShows(Work(log), v.i, v.o, env, a);
    }
  }

  /** What a run executes, as the last visit of a history, it got from the source or from an earlier run. */
  lemma {:induction false} ExecutedCameFrom(history: seq<Visit>, v: Visit, normal: string -> string, mask: Rows -> Rows)
    requires v.Ask? && AllCameFrom(history, normal, mask, CachedAfter(history, normal, mask))
    ensures var env, sql := EnvOf(CachedAfter(history, normal, mask), v, normal, mask), RunSql(v.o);
            Execute(sql) in LogOf(env, v) && ExecuteResult(env, sql).rows.Some? ==>
              CameFrom(history + [v], normal, mask, normal(sql), ExecuteResult(env, sql).rows.value)
  {
    var all, n, cached := history + [v], |history|, CachedAfter(history, normal, mask);
    var env, sql := EnvOf(cached, v, normal, mask), RunSql(v.o);
    assert all[..n] == history && all[n] == v;
    if Execute(sql) in LogOf(env, v) && ExecuteResult(env, sql).rows.Some? {
      if normal(sql) in cached {
        LongerHistory(history, v, normal, mask, normal(sql), cached[normal(sql)]);
      } else {
        assert GaveAt(all, n, normal, mask, normal(sql), mask(v.source(sql).value));
      }
    }
  }

  /** A run caches nothing but the rows it got. */
  lemma {:induction false} CacheOfRun(env: Env, log: seq<Action>, sql: string)
    requires forall a :: a in log && a.Execute? ==> a.sql == sql
    ensures CacheOf(env, log) == if Execute(sql) in log then CacheAfter(env, sql) else env.cached
  {
    if log != [] {
      assert log[0] in log;
      CacheOfRun(env, log[1..], sql);
    }
  }

  lemma {:induction false} RunKeepsOrigins(history: seq<Visit>, v: Visit, normal: string -> string, mask: Rows -> Rows)
    requires v.Ask? && AllCameFrom(history, normal, mask, CachedAfter(history, normal, mask))
    ensures var env := EnvOf(CachedAfter(history, normal, mask), v, normal, mask);
            AllCameFrom(history + [v], normal, mask, CacheOf(env, LogOf(env, v)))
  {
    var env, sql := EnvOf(CachedAfter(history, normal, mask), v, normal, mask), RunSql(v.o);
    var log := LogOf(env, v);
    forall a | a in log && a.Execute? ensures a.sql == sql {
      RunExecutes(env, v, a);
    }
    CacheOfRun(env, log, sql);
    ExecutedCameFrom(history, v, normal, mask);
    var after := CacheOf(env, log);
    forall key | key in after ensures CameFrom(history + [v], normal, mask, key, after[key]) {
      if key in env.cached && after[key] == env.cached[key] {
        LongerHistory(history, v, normal, mask, key, after[key]);
      }
    }
  }

  lemma {:induction false} CacheCameFrom(history: seq<Visit>, normal: string -> string, mask: Rows -> Rows)
    ensures AllCameFrom(history, normal, mask, CachedAfter(history, normal, mask))
  {
    if history != [] {
      var before, v := history[..|history| - 1], history[|history| - 1];
      CacheCameFrom(before, normal, mask);
      assert before + [v] == history;
      if v.Ask? {
        RunKeepsOrigins(before, v, normal, mask);
      } else {
        var cached := CachedAfter(history, normal, mask);
        forall key | key in cached ensures CameFrom(history, normal, mask, key, cached[key]) {
          LongerHistory(before, v, normal, mask, key, cached[key]);
        }
      }
    }
  }

  /** After any history of runs, with any evictions: every cached row set, every row set that the next run
      shows to the chart and narrative agents, and the rows whose first five its data event carries, are
      what the source returned to some run of the history, or to the next one, for a query with the same
      key, and masked. */
  lemma {:induction false} OnlyMaskedRowsTravel(history: seq<Visit>, next: Visit, normal: string -> string,
                                                mask: Rows -> Rows)
    requires next.Ask?
    ensures var cached, all := CachedAfter(history, normal, mask), history + [next];
            AllCameFrom(history, normal, mask, cached)
            && forall a :: a in LogOf(EnvOf(cached, next, normal, mask), next) ==>
                 (Shown(a).Some? ==> CameFrom(all, normal, mask, normal(RunSql(next.o)), Shown(a).value))
                 && (next.streaming && a.Emit? && a.event.Data? && a.event.count > 0 ==>
                       exists rows :: CameFrom(all, normal, mask, normal(RunSql(next.o)), rows)
                                      && a.event.count == |rows| && a.event.preview == Preview(rows))
  {
    CacheCameFrom(history, normal, mask);
    ExecutedCameFrom(history, next, normal, mask);
    var env := EnvOf(CachedAfter(history, normal, mask), next, normal, mask);
    forall a | a in LogOf(env, next)
      ensures Shown(a).Some? ==> CameFrom(history + [next], normal, mask, normal(RunSql(next.o)), Shown(a).value)
      ensures next.streaming && a.Emit? && a.event.Data? && a.event.count > 0 ==>
                exists rows :: CameFrom(history + [next], normal, mask, normal(RunSql(next.o)), rows)
                               && a.event.count == |rows| && a.event.preview == Preview(rows)
    {
      RunExecutes(env, next, a);
      if next.streaming && a.Emit? && a.event.Data? && a.event.count > 0 {
        StreamData(next.i, next.o, env);
        var rows := ExecuteResult(env, RunSql(next.o)).rows.value;
        assert a.event.count == |rows| && a.event.preview == Preview(rows);
      }
    }
  }

  // ---------- the data event is about the executed rows ----------

  function DataEvent(x: Executed): Event
  {
    var rows := if x.rows.Some? then x.rows.value else [];
    Data(|rows|, Preview(rows), x.warnings)
  }

  ghost predicate NoData(log: seq<Action>)
  {
    forall e :: Emit(e) in log ==> !e.Data?
  }

  /** A data event in the log tells the result of an execution that is in the log too. */
  ghost predicate DataBehind(log: seq<Action>, run: string, x: Executed)
  {
    forall e :: Emit(e) in log && e.Data? ==> e == DataEvent(x) && Execute(run) in log
  }

  lemma {:induction false} DataFirst(a: Action, rest: seq<Action>, run: string, x: Executed)
    requires DataBehind(rest, run, x) && (a.Emit? ==> !a.event.Data?)
    ensures DataBehind([a] + rest, run, x)
  {
  }

  lemma {:induction false} ChartHasNoData(o: Outcomes, sql: string, rows: Rows, w: seq<string>)
    ensures NoData(StreamChart(o, sql, rows, w))
  {
    if o.chart.Returned? {
      var c := o.chart.value;
      assert NoData(StreamNarrate(o, sql, c, w + c.warnings));
    }
  }

  lemma {:induction false} PresentData(o: Outcomes, run: string, sql: string, x: Executed, w: seq<string>)
    ensures DataBehind([Execute(run)] + StreamPresent(o, sql, x, w), run, x)
  {
    var rows := if x.rows.Some? then x.rows.value else [];
    var rest := if rows == [] then Closing(NO_DATA, Some(sql), Done("no_data", None, None, w + x.warnings))
                else [ToChart(rows)] + StreamChart(o, sql, rows, w + x.warnings);
    ChartHasNoData(o, sql, rows, w + x.warnings);
    assert NoData(rest);
    assert StreamPresent(o, sql, x, w) == [Emit(DataEvent(x))] + rest;
  }

  lemma {:induction false} VerdictData(i: Input, o: Outcomes, env: Env, sql: string, v: Verdict, w: seq<string>)
    ensures DataBehind(StreamVerdict(i, o, env, sql, v, w), Or(v.validatedSql, sql),
                       ExecuteResult(env, Or(v.validatedSql, sql)))
  {
    if v.valid && (v.requiresConfirmation ==> i.confirmed) {
      var run := Or(v.validatedSql, sql);
      PresentData(o, run, sql, ExecuteResult(env, run), w);
    }
  }

  lemma {:induction false} GenerateData(i: Input, o: Outcomes, env: Env)
    ensures DataBehind(StreamGenerate(i, o, env), RunSql(o), ExecuteResult(env, RunSql(o)))
  {
    var run, x := RunSql(o), ExecuteResult(env, RunSql(o));
    if o.generate.Returned? {
      var g := o.generate.value;
      if Or(g.sql, "") == "" {
        assert NoData(Closing(NO_SQL, None, Done("no_sql", None, None, g.warnings)));
      } else {
        var sql, rest := g.sql.value, StreamValidate(i, o, env, g.sql.value, g.warnings);
        if o.validate.Returned? {
          var v := o.validate.value;
          VerdictData(i, o, env, sql, v, g.warnings + v.warnings);
          DataFirst(Emit(Validation(v)), StreamVerdict(i, o, env, sql, v, g.warnings + v.warnings), run, x);
        }
        DataFirst(Validate(sql), rest, run, x);
        DataFirst(Emit(Sql(g.sql, g.warnings)), [Validate(sql)] + rest, run, x);
      }
    }
  }

  lemma {:induction false} StreamData(i: Input, o: Outcomes, env: Env)
    ensures DataBehind(Stream(i, o, env), RunSql(o), ExecuteResult(env, RunSql(o)))
  {
    var run, x := RunSql(o), ExecuteResult(env, RunSql(o));
    GenerateData(i, o, env);
    if o.route.Returned? {
      var r := o.route.value;
      assert DataBehind(StreamKnowledge(i, o, env, r), run, x);
      DataFirst(Emit(Intent(r.intent, r.plan)), StreamKnowledge(i, o, env, r), run, x);
    }
    var start := Emit(Start(i.query, i.session, i.conversation));
    DataFirst(start, StreamRoute(i, o, env), run, x);
    DataFirst(Persist(Turn("user", i.query, None)), [start] + StreamRoute(i, o, env), run, x);
  }

  // ---------- what the browser's schema lets through ----------

  function TextOrNull(t: Option<string>): Json
  {
    if t.Some? then Text(t.value) else Null
  }

  function NumOrNull(n: Option<int>): Json
  {
    if n.Some? then Num(n.value) else Null
  }

  function Texts(ts: seq<string>): Json
  {
    Arr(seq(|ts|, k requires 0 <= k < |ts| => Text(ts[k])))
  }

  function Records(rs: seq<Record>): Json
  {
    Arr(seq(|rs|, k requires 0 <= k < |rs| => Obj(rs[k])))
  }

  /** The names of the fields of an event object. */
  datatype Field =
    | EventF | QueryF | SessionIdF | ConversationIdF | IntentF | PlanF | SqlF | ValidF | ValidatedSqlF
    | RequiresConfirmationF | RowEstimateF | RowCountF | PreviewF | ChartSpecF | ImageBase64F | SvgF
    | NarrativeF | StatusF | ErrorF | WarningsF

  function NameOf(e: Event): string
  {
    match e
    case Start(_, _, _) => "start"
    case Intent(_, _) => "intent"
    case Sql(_, _) => "sql"
    case Validation(_) => "validation"
    case Data(_, _, _) => "data"
    case Chart(_, _, _, _) => "chart"
    case Narrative(_, _) => "narrative"
    case Done(_, _, _, _) => "done"
  }

  /** The object that the server prints for an event, field by field; a missing value is printed as null. */
  function Printed(e: Event, f: Field): Option<Json>
  {
    if f == EventF then Some(Text(NameOf(e))) else
    match e
    case Start(query, session, conversation) =>
      (match f case QueryF => Some(Text(query)) case SessionIdF => Some(Text(session))
               case ConversationIdF => Some(Text(conversation)) case _ => None)
    case Intent(intent, plan) =>
      (match f case IntentF => Some(Text(intent)) case PlanF => Some(Records(plan)) case _ => None)
    case Sql(sql, w) =>
      (match f case SqlF => Some(TextOrNull(sql)) case WarningsF => Some(Texts(w)) case _ => None)
    case Validation(v) =>
      (match f case ValidF => Some(Bool(v.valid)) case ValidatedSqlF => Some(TextOrNull(v.validatedSql))
               case RequiresConfirmationF => Some(Bool(v.requiresConfirmation))
               case RowEstimateF => Some(NumOrNull(v.rowEstimate)) case WarningsF => Some(Texts(v.warnings))
               case _ => None)
    case Data(count, preview, w) =>
      (match f case RowCountF => Some(Num(count)) case PreviewF => Some(Records(preview))
               case WarningsF => Some(Texts(w)) case _ => None)
    case Chart(spec, image, svg, w) =>
      (match f case ChartSpecF => Some(if spec.Some? then Obj(spec.value) else Null)
               case ImageBase64F => Some(TextOrNull(image)) case SvgF => Some(TextOrNull(svg))
               case WarningsF => Some(Texts(w)) case _ => None)
    case Narrative(text, w) =>
      (match f case NarrativeF => Some(TextOrNull(text)) case WarningsF => Some(Texts(w)) case _ => None)
    case Done(status, error, estimate, w) =>
      (match f case StatusF => Some(Text(status)) case WarningsF => Some(Texts(w))
               case ErrorF => if error.Some? then Some(Text(error.value)) else None
               case RequiresConfirmationF => if estimate.Some? then Some(Bool(true)) else None
               case RowEstimateF => if estimate.Some? then Some(NumOrNull(estimate.value)) else None
               case _ => None)
  }

  datatype Kind = AText | ABool | ANum | ARecord | SomeTexts | SomeRecords

  predicate HasKind(j: Json, kind: Kind)
  {
    match kind
    case AText => j.Text?
    case ABool => j.Bool?
    case ANum => j.Num?
    case ARecord => j.Obj?
    case SomeTexts => j.Arr? && forall k :: 0 <= k < |j.items| ==> j.items[k].Text?
    case SomeRecords => j.Arr? && forall k :: 0 <= k < |j.items| ==> j.items[k].Obj?
  }

  predicate IsEventName(name: string)
  {
    name == "start" || name == "intent" || name == "sql" || name == "validation" || name == "data"
    || name == "chart" || name == "narrative" || name == "done"
  }

  /** An optional field may be left out, but be null only if it is nullable too. */
  predicate Optional(value: Option<Json>, kind: Kind, nullable: bool)
  {
    value.Some? ==> HasKind(value.value, kind) || (nullable && value.value.Null?)
  }

  /** The schema's rule for one field. */
  predicate FieldAccepted(f: Field, value: Option<Json>)
  {
    match f
    case EventF => value.Some? && value.value.Text? && IsEventName(value.value.text)
    case QueryF => true
    case ConversationIdF => Optional(value, AText, false)
    case IntentF => Optional(value, AText, false)
    case PlanF => Optional(value, SomeRecords, false)
    case SqlF => Optional(value, AText, true)
    case ValidF => Optional(value, ABool, false)
    case ValidatedSqlF => Optional(value, AText, true)
    case RowCountF => Optional(value, ANum, false)
    case PreviewF => Optional(value, SomeRecords, false)
    case ChartSpecF => Optional(value, ARecord, false)
    case ImageBase64F => Optional(value, AText, false)
    case SvgF => Optional(value, AText, false)
    case NarrativeF => Optional(value, AText, true)
    case StatusF => Optional(value, AText, false)
    case ErrorF => Optional(value, AText, false)
    case WarningsF => Optional(value, SomeTexts, false)
    case SessionIdF => Optional(value, AText, false)
    case RequiresConfirmationF => Optional(value, ABool, false)
    case RowEstimateF => Optional(value, ANum, true)
  }

  ghost predicate SchemaAccepts(e: Event)
  {
    forall f :: FieldAccepted(f, Printed(e, f))
  }

  /** A chart that has a specification and both renderings. */
  predicate Complete(e: Event)
  {
    e.Chart? ==> e.spec.Some? && e.image.Some? && e.svg.Some?
  }

  /** The schema takes every event of the server, except a chart event with anything missing. */
  lemma {:induction false} SchemaTakesExactly(e: Event)
    ensures SchemaAccepts(e) <==> Complete(e)
  {
    if Complete(e) {
      forall f ensures FieldAccepted(f, Printed(e, f)) {
        CompleteField(e, f);
      }
    } else {
      var f := if e.spec.None? then ChartSpecF else if e.image.None? then ImageBase64F else SvgF;
      assert !FieldAccepted(f, Printed(e, f));
    }
  }

  lemma {:induction false} CompleteField(e: Event, f: Field)
    requires Complete(e)
    ensures FieldAccepted(f, Printed(e, f))
  {
  }

  // ---------- what the schema keeps of an event ----------

  type Message = map<Field, Json>

  /** The object that the server prints. */
  function Whole(e: Event): Message
  {
    map f: Field | Printed(e, f).Some? :: Printed(e, f).value
  }

  /** The schema strips the fields it does not name, and it names all but the query. */
  function Received(e: Event): Message
  {
    map f: Field | f != QueryF && Printed(e, f).Some? :: Printed(e, f).value
  }

  function NullOr(text: Option<string>): Json
  {
    if text.Some? then Text(text.value) else Null
  }

  function SpelledVerdict(v: Verdict): Message
  {
    map[EventF := Text("validation"), ValidF := Bool(v.valid), ValidatedSqlF := NullOr(v.validatedSql),
        RequiresConfirmationF := Bool(v.requiresConfirmation), WarningsF := Texts(v.warnings),
        RowEstimateF := if v.rowEstimate.Some? then Num(v.rowEstimate.value) else Null]
  }

  function SpelledChart(spec: Option<Record>, image: Option<string>, svg: Option<string>, w: seq<string>): Message
  {
    map[EventF := Text("chart"), ChartSpecF := if spec.Some? then Obj(spec.value) else Null,
        ImageBase64F := NullOr(image), SvgF := NullOr(svg), WarningsF := Texts(w)]
  }

  function SpelledEnd(status: string, error: Option<string>, estimate: Option<Option<int>>, w: seq<string>): Message
  {
    map[EventF := Text("done"), StatusF := Text(status), WarningsF := Texts(w)]
    + (if error.Some? then map[ErrorF := Text(error.value)] else map[])
    + (if estimate.Some?
       then map[RequiresConfirmationF := Bool(true),
                RowEstimateF := if estimate.value.Some? then Num(estimate.value.value) else Null]
       else map[])
  }

  /** The fields under which each event arrives, and what they hold. */
  function Spelled(e: Event): Message
  {
    match e
    case Start(_, session, conversation) =>
      map[EventF := Text("start"), SessionIdF := Text(session), ConversationIdF := Text(conversation)]
    case Intent(intent, plan) => map[EventF := Text("intent"), IntentF := Text(intent), PlanF := Records(plan)]
    case Sql(sql, w) => map[EventF := Text("sql"), SqlF := NullOr(sql), WarningsF := Texts(w)]
    case Validation(v) => SpelledVerdict(v)
    case Data(count, preview, w) =>
      map[EventF := Text("data"), RowCountF := Num(count), PreviewF := Records(preview), WarningsF := Texts(w)]
    case Chart(spec, image, svg, w) => SpelledChart(spec, image, svg, w)
    case Narrative(text, w) => map[EventF := Text("narrative"), NarrativeF := NullOr(text), WarningsF := Texts(w)]
    case Done(status, error, estimate, w) => SpelledEnd(status, error, estimate, w)
  }

  /** A message agrees with the server's event in a field. */
  ghost predicate Agree(m: Message, e: Event, f: Field)
  {
    if f in m then f != QueryF && Printed(e, f) == Some(m[f]) else f == QueryF || Printed(e, f).None?
  }

  lemma {:induction false} EndTells(status: string, error: Option<string>, estimate: Option<Option<int>>,
                                    w: seq<string>, f: Field)
    ensures Agree(SpelledEnd(status, error, estimate, w), Done(status, error, estimate, w), f)
  {
  }

  lemma {:induction false} VerdictTells(v: Verdict, f: Field)
    ensures Agree(SpelledVerdict(v), Validation(v), f)
  {
  }

  lemma {:induction false} ChartTells(spec: Option<Record>, image: Option<string>, svg: Option<string>,
                                      w: seq<string>, f: Field)
    ensures Agree(SpelledChart(spec, image, svg, w), Chart(spec, image, svg, w), f)
  {
  }

  lemma {:induction false} FieldTells(e: Event, f: Field)
    ensures Agree(Spelled(e), e, f)
  {
    match e
    case Validation(v) => VerdictTells(v, f);
    case Chart(spec, image, svg, w) => ChartTells(spec, image, svg, w, f);
    case Done(status, error, estimate, w) => EndTells(status, error, estimate, w, f);
    case _ =>
  }

  lemma {:induction false} MessageTells(e: Event)
    ensures Received(e) == Spelled(e)
  {
    forall f: Field ensures f in Received(e) <==> f in Spelled(e) {
      FieldTells(e, f);
    }
    forall f | f in Spelled(e) ensures Received(e)[f] == Spelled(e)[f] {
      FieldTells(e, f);
    }
  }

  /** Exactly the start event arrives changed: it loses its query. */
  lemma {:induction false} OnlyStartIsStripped(e: Event)
    ensures Received(e) == Whole(e) <==> !e.Start?
    ensures Received(e) == Whole(e) - {QueryF}
  {
    if e.Start? {
      assert QueryF in Whole(e) && QueryF !in Received(e);
    } else {
      assert Printed(e, QueryF).None?;
    }
  }

  /** The first and second field that events of each kind print, besides their name. */
  function FieldsOf(e: Event): (Field, Field)
  {
    match e
    case Start(_, _, _) => (SessionIdF, ConversationIdF)
    case Intent(_, _) => (IntentF, PlanF)
    case Sql(_, _) => (SqlF, WarningsF)
    case Validation(_) => (ValidF, ValidatedSqlF)
    case Data(_, _, _) => (RowCountF, PreviewF)
    case Chart(_, _, _, _) => (ChartSpecF, ImageBase64F)
    case Narrative(_, _) => (NarrativeF, WarningsF)
    case Done(_, _, _, _) => (StatusF, WarningsF)
  }

  lemma {:induction false} SameKind(a: Event, b: Event)
    requires Received(a) == Received(b)
    ensures Position(a) == Position(b)
  {
    var f := FieldsOf(a).0;
    assert f in Received(a) && f in Received(b);
  }

  lemma {:induction false} SameField(a: Event, b: Event, f: Field)
    requires Received(a) == Received(b) && f != QueryF
    ensures Printed(a, f) == Printed(b, f)
  {
    assert f in Received(a) <==> f in Received(b);
    if f in Received(a) {
      assert Received(a)[f] == Received(b)[f];
    }
  }

  lemma {:induction false} TextsInjective(a: seq<string>, b: seq<string>)
    requires Texts(a) == Texts(b)
    ensures a == b
  {
    var x, y := Texts(a).items, Texts(b).items;
    forall k | 0 <= k < |a| ensures a[k] == b[k] {
      assert x[k] == y[k];
    }
  }

  lemma {:induction false} RecordsInjective(a: seq<Record>, b: seq<Record>)
    requires Records(a) == Records(b)
    ensures a == b
  {
    var x, y := Records(a).items, Records(b).items;
    forall k | 0 <= k < |a| ensures a[k] == b[k] {
      assert x[k] == y[k];
    }
  }

  /** Two events arrive as the same message only if they are the same, but for the query of a start event. */
  lemma {:induction false} OnlyQueriesAreConfused(a: Event, b: Event)
    ensures Received(a) == Received(b)
            <==> a == b || (a.Start? && b.Start? && a.session == b.session && a.conversation == b.conversation)
  {
    if Received(a) == Received(b) {
      SameKind(a, b);
      match a
      case Start(_, _, _) => StartFields(a, b);
      case Intent(_, _) =>
        SameField(a, b, IntentF);
        SameField(a, b, PlanF);
        RecordsInjective(a.plan, b.plan);
      case Sql(_, _) =>
        SameField(a, b, SqlF);
        SameField(a, b, WarningsF);
        TextsInjective(a.warnings, b.warnings);
      case Validation(_) => SameVerdict(a, b);
      case Data(_, _, _) =>
        SameField(a, b, RowCountF);
        SameField(a, b, PreviewF);
        SameField(a, b, WarningsF);
        RecordsInjective(a.preview, b.preview);
        TextsInjective(a.warnings, b.warnings);
      case Chart(_, _, _, _) => SameChart(a, b);
      case Narrative(_, _) =>
        SameField(a, b, NarrativeF);
        SameField(a, b, WarningsF);
        TextsInjective(a.warnings, b.warnings);
      case Done(_, _, _, _) => SameDone(a, b);
    } else if a.Start? && b.Start? {
      StartFields(a, b);
    }
  }

  lemma {:induction false} StartFields(a: Event, b: Event)
    requires a.Start? && b.Start?
    ensures Received(a) == Received(b) <==> a.session == b.session && a.conversation == b.conversation
  {
    if Received(a) == Received(b) {
      SameField(a, b, SessionIdF);
      SameField(a, b, ConversationIdF);
    }
  }

  lemma {:induction false} SameVerdict(a: Event, b: Event)
    requires Received(a) == Received(b) && a.Validation? && b.Validation?
    ensures a == b
  {
    SameField(a, b, ValidF);
    SameField(a, b, ValidatedSqlF);
    SameField(a, b, RequiresConfirmationF);
    SameField(a, b, RowEstimateF);
    SameField(a, b, WarningsF);
    TextsInjective(a.verdict.warnings, b.verdict.warnings);
  }

  lemma {:induction false} SameChart(a: Event, b: Event)
    requires Received(a) == Received(b) && a.Chart? && b.Chart?
    ensures a == b
  {
    SameField(a, b, ChartSpecF);
    SameField(a, b, ImageBase64F);
    SameField(a, b, SvgF);
    SameField(a, b, WarningsF);
    TextsInjective(a.warnings, b.warnings);
  }

  lemma {:induction false} SameDone(a: Event, b: Event)
    requires Received(a) == Received(b) && a.Done? && b.Done?
    ensures a == b
  {
    SameField(a, b, StatusF);
    SameField(a, b, ErrorF);
    SameField(a, b, RowEstimateF);
    SameField(a, b, WarningsF);
    TextsInjective(a.warnings, b.warnings);
  }

  lemma {:induction false} AcceptedAreComplete(events: seq<Event>)
    ensures Accepted(events, SchemaAccepts, Received) == Accepted(events, Complete, Received)
  {
    if events != [] {
      SchemaTakesExactly(events[0]);
      AcceptedAreComplete(events[1..]);
    }
  }

  /** From the server's log to the browser's callback: in whatever chunks the stream arrives, the browser
      is handed the run's events in order, the start event without its query and every other one as it was
      printed, except that a chart event is lost when its specification, its image or its SVG is missing. */
  lemma {:induction false} BrowserSees(i: Input, o: Outcomes, env: Env, print_: Event -> string,
                                       parse: string -> Option<Message>, chunks: seq<string>)
    requires Inverse(print_, parse, SchemaAccepts, Received)
    requires Text.Flatten(chunks) == Transcript(Frames(Events(Stream(i, o, env)), print_))
    ensures Delivered(Text.Flatten(chunks), parse) == Accepted(Events(Stream(i, o, env)), Complete, Received)
    ensures Unterminated(Text.Flatten(chunks)) == ""
  {
    EventsArrive(Events(Stream(i, o, env)), print_, parse, SchemaAccepts, Received);
    AcceptedAreComplete(Events(Stream(i, o, env)));
  }

  // ---------- the browser never sees a chart with one rendering ----------

  function ChartEvent(c: ChartOutput): Event
  {
    Chart(c.spec, c.image, c.svg, c.warnings)
  }

  ghost predicate ChartsFrom(log: seq<Action>, o: Outcomes)
  {
    forall e :: Emit(e) in log && e.Chart? ==> o.chart.Returned? && e == ChartEvent(o.chart.value)
  }

  lemma {:induction false} ChartsFromFirst(a: Action, rest: seq<Action>, o: Outcomes)
    requires ChartsFrom(rest, o)
    requires a.Emit? && a.event.Chart? ==> o.chart.Returned? && a.event == ChartEvent(o.chart.value)
    ensures ChartsFrom([a] + rest, o)
  {
  }

  lemma {:induction false} ClosingHasNone(content: string, sql: Option<string>, done: Event, o: Outcomes)
    requires done.Done?
    ensures ChartsFrom(Closing(content, sql, done), o)
  {
  }

  lemma {:induction false} PresentCharts(o: Outcomes, sql: string, x: Executed, w: seq<string>)
    ensures ChartsFrom(StreamPresent(o, sql, x, w), o)
  {
    var rows := if x.rows.Some? then x.rows.value else [];
    var data := Emit(Data(|rows|, Preview(rows), x.warnings));
    if rows == [] {
      ClosingHasNone(NO_DATA, Some(sql), Done("no_data", None, None, w + x.warnings), o);
      ChartsFromFirst(data, Closing(NO_DATA, Some(sql), Done("no_data", None, None, w + x.warnings)), o);
    } else {
      var chart := StreamChart(o, sql, rows, w + x.warnings);
      ChartCharts(o, sql, rows, w + x.warnings);
      ChartsFromFirst(ToChart(rows), chart, o);
      ChartsFromFirst(data, [ToChart(rows)] + chart, o);
    }
  }

  lemma {:induction false} ChartCharts(o: Outcomes, sql: string, rows: Rows, w: seq<string>)
    ensures ChartsFrom(StreamChart(o, sql, rows, w), o)
  {
    if o.chart.Returned? {
      var c := o.chart.value;
      var narrate := StreamNarrate(o, sql, c, w + c.warnings);
      assert ChartsFrom(narrate, o);
      ChartsFromFirst(ToNarrative(rows), narrate, o);
      ChartsFromFirst(Emit(ChartEvent(c)), [ToNarrative(rows)] + narrate, o);
    }
  }

  lemma {:induction false} VerdictCharts(i: Input, o: Outcomes, env: Env, sql: string, v: Verdict, w: seq<string>)
    ensures ChartsFrom(StreamVerdict(i, o, env, sql, v, w), o)
  {
    if v.valid && (v.requiresConfirmation ==> i.confirmed) {
      var run := Or(v.validatedSql, sql);
      PresentCharts(o, sql, ExecuteResult(env, run), w);
      ChartsFromFirst(Execute(run), StreamPresent(o, sql, ExecuteResult(env, run), w), o);
    }
  }

  lemma {:induction false} GenerateCharts(i: Input, o: Outcomes, env: Env)
    ensures ChartsFrom(StreamGenerate(i, o, env), o)
  {
    if o.generate.Returned? {
      var g := o.generate.value;
      var event := Emit(Sql(g.sql, g.warnings));
      if Or(g.sql, "") == "" {
        ClosingHasNone(NO_SQL, None, Done("no_sql", None, None, g.warnings), o);
        ChartsFromFirst(event, Closing(NO_SQL, None, Done("no_sql", None, None, g.warnings)), o);
      } else {
        var sql, rest := g.sql.value, StreamValidate(i, o, env, g.sql.value, g.warnings);
        if o.validate.Returned? {
          var v := o.validate.value;
          VerdictCharts(i, o, env, sql, v, g.warnings + v.warnings);
          ChartsFromFirst(Emit(Validation(v)), StreamVerdict(i, o, env, sql, v, g.warnings + v.warnings), o);
        }
        ChartsFromFirst(Validate(sql), rest, o);
        ChartsFromFirst(event, [Validate(sql)] + rest, o);
      }
    }
  }

  lemma {:induction false} StreamCharts(i: Input, o: Outcomes, env: Env)
    ensures ChartsFrom(Stream(i, o, env), o)
  {
    GenerateCharts(i, o, env);
    if o.route.Returned? {
      var r := o.route.value;
      assert ChartsFrom(StreamKnowledge(i, o, env, r), o);
      ChartsFromFirst(Emit(Intent(r.intent, r.plan)), StreamKnowledge(i, o, env, r), o);
    }
    var start := Emit(Start(i.query, i.session, i.conversation));
    ChartsFromFirst(start, StreamRoute(i, o, env), o);
    ChartsFromFirst(Persist(Turn("user", i.query, None)), [start] + StreamRoute(i, o, env), o);
  }

  lemma {:induction false} EventIsEmitted(log: seq<Action>, e: Event)
    requires e in Events(log)
    ensures Emit(e) in log
  {
    if log[0] != Emit(e) {
      EventIsEmitted(log[1..], e);
    }
  }

  /** Every received message is that of an accepted event. */
  lemma {:induction false} AcceptedHold(events: seq<Event>, m: Message)
    requires m in Accepted(events, Complete, Received)
    ensures exists e :: e in events && Complete(e) && m == Received(e)
  {
    if Complete(events[0]) && m == Received(events[0]) {
      assert events[0] in events;
    } else {
      AcceptedHold(events[1..], m);
      var e :| e in events[1..] && Complete(e) && m == Received(e);
      assert e in events;
    }
  }

  lemma {:induction false} OnlyChartsAreNamedChart(e: Event)
    ensures EventF in Received(e) && (Received(e)[EventF] == Text("chart") <==> e.Chart?)
  {
    assert Printed(e, EventF) == Some(Text(NameOf(e)));
    assert |NameOf(e)| == 5 ==> e.Start? || e.Chart?;
    assert "start"[0] != "chart"[0];
  }

  /** A renderer yields either an image or an SVG: the browser is then never handed a chart event. */
  lemma {:induction false} OneRenderingIsLost(i: Input, o: Outcomes, env: Env, m: Message)
    requires o.chart.Returned? ==> o.chart.value.image.None? || o.chart.value.svg.None?
    requires m in Accepted(Events(Stream(i, o, env)), Complete, Received)
    ensures EventF in m && m[EventF] != Text("chart")
  {
    AcceptedHold(Events(Stream(i, o, env)), m);
    var e :| e in Events(Stream(i, o, env)) && Complete(e) && m == Received(e);
    EventIsEmitted(Stream(i, o, env), e);
    StreamCharts(i, o, env);
    OnlyChartsAreNamedChart(e);
  }
}

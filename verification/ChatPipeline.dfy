/** The question pipeline: route, SQL generation, validation, execution, chart and narrative, once with a
    single response at the end and once as a stream of events. Each stage is an outcome that may also be
    an exception; what a run does is the log of its actions. */
module ChatPipeline {
  import opened Wrappers

  // ---------- data ----------

  datatype Json =
    | Null
    | Bool(flag: bool)
    | Num(number: int)
    | Text(text: string)
    | Arr(items: seq<Json>)
    | Obj(fields: map<string, Json>)

  type Record = map<string, Json>

  type Rows = seq<Record>

  datatype Try<+T> = Returned(value: T) | Raised(message: string)

  datatype Verdict = Verdict(valid: bool, warnings: seq<string>, validatedSql: Option<string>,
                             requiresConfirmation: bool, rowEstimate: Option<int>)

  datatype ChartOutput = ChartOutput(spec: Option<Record>, image: Option<string>, svg: Option<string>,
                                     warnings: seq<string>)

  datatype NarrativeOutput = NarrativeOutput(text: Option<string>, warnings: seq<string>)

  datatype Routed = Routed(intent: string, plan: seq<Record>)

  datatype Generated = Generated(sql: Option<string>, warnings: seq<string>)

  datatype Executed = Executed(rows: Option<Rows>, warnings: seq<string>)

  datatype Input = Input(query: string, session: string, conversation: string, confirmed: bool)

  /** What each stage yields in this run if it is called; `base64` is the encoding of rendered SVG. */
  datatype Outcomes = Outcomes(route: Try<Routed>, wiki: Try<Option<string>>, generate: Try<Generated>,
                               validate: Try<Verdict>, chart: Try<ChartOutput>, narrate: Try<NarrativeOutput>,
                               base64: string -> string)

  /** The query cache by normalised SQL, the data source, and the masking of personal data. */
  datatype Env = Env(cached: map<string, Rows>, source: string -> Try<Rows>, normal: string -> string,
                     mask: Rows -> Rows)

  datatype Turn = Turn(role: string, content: string, sql: Option<string>)

  datatype Event =
    | Start(query: string, session: string, conversation: string)
    | Intent(intent: string, plan: seq<Record>)
    | Sql(sql: Option<string>, warnings: seq<string>)
    | Validation(verdict: Verdict)
    | Data(count: nat, preview: Rows, warnings: seq<string>)
    | Chart(spec: Option<Record>, image: Option<string>, svg: Option<string>, warnings: seq<string>)
    | Narrative(text: Option<string>, warnings: seq<string>)
    | Done(status: string, error: Option<string>, estimate: Option<Option<int>>, warnings: seq<string>)

  datatype Action =
    | Persist(turn: Turn)
    | Emit(event: Event)
    | Validate(sql: string)
    | Execute(sql: string)
    | ToChart(rows: Rows)
    | ToNarrative(rows: Rows)

  datatype Response = Response(sql: Option<string>, chartSpec: Option<Record>, narrative: Option<string>,
                               image: Option<string>, svg: Option<string>, warnings: seq<string>,
                               requiresConfirmation: bool, rowEstimate: Option<int>)

  const PLAIN := Response(None, None, None, None, None, [], false, None)

  const NO_SQL := "Could not generate SQL for this query"
  const UNSAFE := "Generated SQL failed safety validation"
  const UNCONFIRMED := "Confirmation required before running this large query"
  const NO_DATA := "Query execution returned no data"
  const DEFAULT_TEXT := "Here's what I found."
  const KNOWLEDGE := "chat_knowledge"

  /** `a or b` of Python, for a text that may be missing. */
  function Or(a: Option<string>, b: string): string
  {
    if a.Some? && a.value != "" then a.value else b
  }

  /** The narrative with the rendered chart embedded as an image. */
  function Content(n: NarrativeOutput, c: ChartOutput, base64: string -> string): string
  {
    var text := Or(n.text, DEFAULT_TEXT);
    if Or(c.svg, "") != "" then text + "\n\n![chart](data:image/svg+xml;base64," + base64(c.svg.value) + ")"
    else if Or(c.image, "") != "" then text + "\n\n![chart](data:image/png;base64," + c.image.value + ")"
    else text
  }

  // ---------- execution behind the cache ----------

  /** A cached row set, or what the data source returns, masked. */
  function ExecuteResult(env: Env, sql: string): Executed
  {
    if env.normal(sql) in env.cached then Executed(Some(env.cached[env.normal(sql)]), [])
    else match env.source(sql)
      case Raised(m) => Executed(None, ["Query execution failed: " + m])
      case Returned(rows) => Executed(Some(env.mask(rows)), [])
  }

  function CacheAfter(env: Env, sql: string): map<string, Rows>
  {
    if env.normal(sql) in env.cached || env.source(sql).Raised? then env.cached
    else env.cached[env.normal(sql) := env.mask(env.source(sql).value)]
  }

  // ---------- the run with one response ----------

  datatype Trace = Trace(log: seq<Action>, response: Response)

  function Assistant(content: string, sql: Option<string>): Action
  {
    Persist(Turn("assistant", content, sql))
  }

  function Then(a: Action, rest: Trace): Trace
  {
    Trace([a] + rest.log, rest.response)
  }

  /** The last turn and the response. */
  function Answer(content: string, sql: Option<string>, response: Response): Trace
  {
    Trace([Assistant(content, sql)], response)
  }

  function Failed(warnings: seq<string>, message: string): Trace
  {
    Answer("Pipeline error: " + message, None, PLAIN.(warnings := warnings + ["Pipeline error: " + message]))
  }

  function Sync(i: Input, o: Outcomes, env: Env): Trace
  {
    Then(Persist(Turn("user", i.query, None)), SyncRoute(i, o, env))
  }

  function SyncRoute(i: Input, o: Outcomes, env: Env): Trace
  {
    match o.route
    case Raised(m) => Failed([], m)
    case Returned(r) =>
      if r.intent != KNOWLEDGE then SyncGenerate(i, o, env) else
      match o.wiki
      case Raised(m) => Failed([], m)
      case Returned(answer) =>
        if answer.Some? then Answer(answer.value, None, PLAIN.(narrative := answer)) else SyncGenerate(i, o, env)
  }

  function SyncGenerate(i: Input, o: Outcomes, env: Env): Trace
  {
    match o.generate
    case Raised(m) => Failed([], m)
    case Returned(g) =>
      if Or(g.sql, "") == "" then Answer(NO_SQL, None, PLAIN.(warnings := g.warnings + [NO_SQL]))
      else Then(Validate(g.sql.value), SyncValidate(i, o, env, g.sql.value, g.warnings))
  }

  function SyncValidate(i: Input, o: Outcomes, env: Env, sql: string, w: seq<string>): Trace
  {
    match o.validate
    case Raised(m) => Failed(w, m)
    case Returned(v) =>
      var w := w + v.warnings;
      if !v.valid then Answer(UNSAFE, Some(sql), PLAIN.(sql := Some(sql), warnings := w + [UNSAFE]))
      else if v.requiresConfirmation && !i.confirmed then
        Answer(UNCONFIRMED, Some(sql),
               PLAIN.(sql := Some(sql), warnings := w, requiresConfirmation := true, rowEstimate := v.rowEstimate))
      else
        var run := Or(v.validatedSql, sql);
        Then(Execute(run), SyncPresent(o, sql, v, ExecuteResult(env, run), w))
  }

  function SyncPresent(o: Outcomes, sql: string, v: Verdict, x: Executed, w: seq<string>): Trace
  {
    var w := w + x.warnings;
    if x.rows.None? then Answer(NO_DATA, Some(sql), PLAIN.(sql := Some(sql), warnings := w + [NO_DATA]))
    else Then(ToChart(x.rows.value), SyncChart(o, sql, v, x.rows.value, w))
  }

  function SyncChart(o: Outcomes, sql: string, v: Verdict, rows: Rows, w: seq<string>): Trace
  {
    match o.chart
    case Raised(m) => Failed(w, m)
    case Returned(c) => Then(ToNarrative(rows), SyncNarrate(o, sql, v, c, w + c.warnings))
  }

  function SyncNarrate(o: Outcomes, sql: string, v: Verdict, c: ChartOutput, w: seq<string>): Trace
  {
    match o.narrate
    case Raised(m) => Failed(w, m)
    case Returned(n) =>
      Answer(Content(n, c, o.base64), Some(sql),
             Response(Some(sql), c.spec, n.text, c.image, c.svg, w + n.warnings, false, v.rowEstimate))
  }

  // ---------- the streaming run ----------

  /** The last turn, and the last event with its warnings. */
  function Closing(content: string, sql: Option<string>, done: Event): seq<Action>
  {
    [Assistant(content, sql)] + [Emit(done)]
  }

  function StreamFailed(warnings: seq<string>, message: string): seq<Action>
  {
    Closing("Pipeline error: " + message, None, Done("error", Some(message), None, warnings))
  }

  function Stream(i: Input, o: Outcomes, env: Env): seq<Action>
  {
    [Persist(Turn("user", i.query, None))]
    + ([Emit(Start(i.query, i.session, i.conversation))] + StreamRoute(i, o, env))
  }

  function StreamRoute(i: Input, o: Outcomes, env: Env): seq<Action>
  {
    match o.route
    case Raised(m) => StreamFailed([], m)
    case Returned(r) => [Emit(Intent(r.intent, r.plan))] + StreamKnowledge(i, o, env, r)
  }

  function StreamKnowledge(i: Input, o: Outcomes, env: Env, r: Routed): seq<Action>
  {
    if r.intent != KNOWLEDGE then StreamGenerate(i, o, env) else
    match o.wiki
    case Raised(m) => StreamFailed([], m)
    case Returned(answer) =>
      if answer.Some? then [Emit(Narrative(answer, []))] + Closing(answer.value, None, Done("complete", None, None, []))
      else StreamGenerate(i, o, env)
  }

  function StreamGenerate(i: Input, o: Outcomes, env: Env): seq<Action>
  {
    match o.generate
    case Raised(m) => StreamFailed([], m)
    case Returned(g) =>
      [Emit(Sql(g.sql, g.warnings))]
      + (if Or(g.sql, "") == "" then Closing(NO_SQL, None, Done("no_sql", None, None, g.warnings))
         else [Validate(g.sql.value)] + StreamValidate(i, o, env, g.sql.value, g.warnings))
  }

  function StreamValidate(i: Input, o: Outcomes, env: Env, sql: string, w: seq<string>): seq<Action>
  {
    match o.validate
    case Raised(m) => StreamFailed(w, m)
    case Returned(v) => [Emit(Validation(v))] + StreamVerdict(i, o, env, sql, v, w + v.warnings)
  }

  function StreamVerdict(i: Input, o: Outcomes, env: Env, sql: string, v: Verdict, w: seq<string>): seq<Action>
  {
    if !v.valid then Closing(UNSAFE, Some(sql), Done("validation_failed", None, None, w))
    else if v.requiresConfirmation && !i.confirmed then
      Closing(UNCONFIRMED, Some(sql), Done("confirmation_required", None, Some(v.rowEstimate), w))
    else
      var run := Or(v.validatedSql, sql);
      [Execute(run)] + StreamPresent(o, sql, ExecuteResult(env, run), w)
  }

  function Preview(rows: Rows): Rows
  {
    if |rows| <= 5 then rows else rows[..5]
  }

  function StreamPresent(o: Outcomes, sql: string, x: Executed, w: seq<string>): seq<Action>
  {
    var rows := if x.rows.Some? then x.rows.value else [];
    [Emit(Data(|rows|, Preview(rows), x.warnings))]
    + (if rows == [] then Closing(NO_DATA, Some(sql), Done("no_data", None, None, w + x.warnings))
       else [ToChart(rows)] + StreamChart(o, sql, rows, w + x.warnings))
  }

  function StreamChart(o: Outcomes, sql: string, rows: Rows, w: seq<string>): seq<Action>
  {
    match o.chart
    case Raised(m) => StreamFailed(w, m)
    case Returned(c) =>
      [Emit(Chart(c.spec, c.image, c.svg, c.warnings))]
      + ([ToNarrative(rows)] + StreamNarrate(o, sql, c, w + c.warnings))
  }

  function StreamNarrate(o: Outcomes, sql: string, c: ChartOutput, w: seq<string>): seq<Action>
  {
    match o.narrate
    case Raised(m) => StreamFailed(w, m)
    case Returned(n) =>
      [Emit(Narrative(n.text, n.warnings))]
      + Closing(Content(n, c, o.base64), Some(sql), Done("complete", None, None, w + n.warnings))
  }

  // ---------- what a log says ----------

  function Turns(log: seq<Action>): seq<Turn>
  {
    if log == [] then [] else (if log[0].Persist? then [log[0].turn] else []) + Turns(log[1..])
  }

  function Events(log: seq<Action>): seq<Event>
  {
    if log == [] then [] else (if log[0].Emit? then [log[0].event] else []) + Events(log[1..])
  }

  /** What was validated, executed and shown to the agents. */
  function Work(log: seq<Action>): seq<Action>
  {
    if log == [] then [] else (if log[0].Persist? || log[0].Emit? then [] else [log[0]]) + Work(log[1..])
  }

  lemma {:induction false} FirstAction(a: Action, rest: seq<Action>)
    ensures Turns([a] + rest) == if a.Persist? then [a.turn] + Turns(rest) else Turns(rest)
    ensures Events([a] + rest) == if a.Emit? then [a.event] + Events(rest) else Events(rest)
    ensures Work([a] + rest) == if a.Persist? || a.Emit? then Work(rest) else [a] + Work(rest)
  {
    assert ([a] + rest)[1..] == rest;
    assert [] + Turns(rest) == Turns(rest) && [] + Events(rest) == Events(rest) && [] + Work(rest) == Work(rest);
  }

  lemma {:induction false} OneAction(a: Action)
    ensures Turns([a]) == (if a.Persist? then [a.turn] else [])
    ensures Events([a]) == (if a.Emit? then [a.event] else [])
    ensures Work([a]) == (if a.Persist? || a.Emit? then [] else [a])
  {
    assert [a] == [a] + [];
    FirstAction(a, []);
  }

  lemma {:induction false} ClosingLog(content: string, sql: Option<string>, done: Event)
    ensures var log := Closing(content, sql, done);
            Turns(log) == [Turn("assistant", content, sql)] && Events(log) == [done] && Work(log) == []
  {
    FirstAction(Assistant(content, sql), [Emit(done)]);
    OneAction(Emit(done));
  }

  // ---------- the event grammar ----------

  function Position(e: Event): nat
  {
    match e
    case Start(_, _, _) => 0
    case Intent(_, _) => 1
    case Sql(_, _) => 2
    case Validation(_) => 3
    case Data(_, _, _) => 4
    case Chart(_, _, _, _) => 5
    case Narrative(_, _) => 6
    case Done(_, _, _, _) => 7
  }

  /** The events from position k on without a gap, cut short anywhere by the only, final, done; which
      says complete exactly when the narrative came right before it. */
  ghost predicate Ordered(events: seq<Event>, k: nat)
  {
    var n := |events| - 1;
    n >= 0 && events[n].Done? && k + n <= 7
    && (forall j :: 0 <= j < n ==> Position(events[j]) == k + j)
    && (events[n].status == "complete" <==> k + n == 7)
  }

  lemma {:induction false} OrderedFirst(e: Event, rest: seq<Event>, k: nat)
    requires Position(e) == k < 7 && Ordered(rest, k + 1)
    ensures Ordered([e] + rest, k)
  {
  }

  lemma {:induction false} OrderedDone(status: string, error: Option<string>, estimate: Option<Option<int>>,
                                       w: seq<string>, k: nat)
    requires k <= 7 && (status == "complete" <==> k == 7)
    ensures Ordered([Done(status, error, estimate, w)], k)
  {
  }

  // ---------- what a client can put together from the events ----------

  function Noted(r: Response, e: Event): Response
  {
    match e
    case Sql(sql, _) => r.(sql := sql)
    case Validation(v) => r.(rowEstimate := v.rowEstimate)
    case Chart(spec, image, svg, _) => r.(chartSpec := spec, image := image, svg := svg)
    case Narrative(text, _) => r.(narrative := text)
    case Done(_, _, estimate, w) => r.(warnings := w, requiresConfirmation := estimate.Some?)
    case _ => r
  }

  function Collected(r: Response, events: seq<Event>): Response
    decreases events
  {
    if events == [] then r else Collected(Noted(r, events[0]), events[1..])
  }

  lemma {:induction false} CollectedFirst(r: Response, e: Event, rest: seq<Event>)
    ensures Collected(r, [e] + rest) == Collected(Noted(r, e), rest)
  {
    assert ([e] + rest)[1..] == rest;
  }

  lemma {:induction false} CollectedOne(r: Response, e: Event)
    ensures Collected(r, [e]) == Noted(r, e)
  {
    assert [e] == [e] + [];
    CollectedFirst(r, e, []);
  }

  /** The events tell the response: all of it when the run is complete or waits for confirmation;
      otherwise all its warnings but the last, which repeats the assistant's turn. */
  ghost predicate Tells(r: Response, events: seq<Event>, turns: seq<Turn>, response: Response)
  {
    events != [] && turns != [] && events[|events| - 1].Done?
    && var done := events[|events| - 1];
    if done.status == "complete" || done.status == "confirmation_required" then Collected(r, events) == response
    else response.warnings == done.warnings + [turns[0].content]
  }

  // ---------- the two runs, stage by stage ----------

  /** A streaming suffix from position k on: ordered events and exactly one turn, the assistant's. */
  ghost predicate Proper(stream: seq<Action>, k: nat)
  {
    Ordered(Events(stream), k) && |Turns(stream)| == 1 && Turns(stream)[0].role == "assistant"
  }

  /** A suffix of either run that shows the agents no rows but these, and executes nothing. */
  ghost predicate Shows(log: seq<Action>, rows: Rows)
  {
    forall a :: a in Work(log) ==> a == ToChart(rows) || a == ToNarrative(rows)
  }

  /** The same turn, the same work, and events that tell the response, after events that told `r`. */
  ghost predicate Agree(stream: seq<Action>, sync: Trace, r: Response)
  {
    Turns(stream) == Turns(sync.log) && Work(stream) == Work(sync.log)
    && Tells(r, Events(stream), Turns(stream), sync.response)
  }

  lemma {:induction false} ClosingAgrees(content: string, sql: Option<string>, done: Event, response: Response,
                                         r: Response, k: nat)
    requires done.Done? && k <= 7 && (done.status == "complete" <==> k == 7)
    requires if done.status == "complete" || done.status == "confirmation_required" then Noted(r, done) == response
             else response.warnings == done.warnings + [content]
    ensures Proper(Closing(content, sql, done), k)
    ensures Agree(Closing(content, sql, done), Answer(content, sql, response), r)
    ensures Work(Closing(content, sql, done)) == [] && Work(Answer(content, sql, response).log) == []
    ensures |Turns(Answer(content, sql, response).log)| == 1
  {
    ClosingLog(content, sql, done);
    OneAction(Assistant(content, sql));
    CollectedOne(r, done);
    OrderedDone(done.status, done.error, done.estimate, done.warnings, k);
  }

  lemma {:induction false} FailedAgrees(w: seq<string>, m: string, r: Response, k: nat)
    requires k < 7
    ensures Proper(StreamFailed(w, m), k) && Agree(StreamFailed(w, m), Failed(w, m), r)
    ensures Work(StreamFailed(w, m)) == [] && Work(Failed(w, m).log) == [] && |Turns(Failed(w, m).log)| == 1
  {
    ClosingAgrees("Pipeline error: " + m, None, Done("error", Some(m), None, w), Failed(w, m).response, r, k);
  }

  lemma {:induction false} NotedInFront(e: Event, stream: seq<Action>, sync: Trace, r: Response)
    requires Agree(stream, sync, Noted(r, e))
    ensures Agree([Emit(e)] + stream, sync, r)
  {
    FirstAction(Emit(e), stream);
    CollectedFirst(r, e, Events(stream));
    assert Turns([Emit(e)] + stream) == Turns(stream) && Work([Emit(e)] + stream) == Work(stream);
  }

  /** An event in front: one position earlier, and told before the rest. */
  lemma {:induction false} EventInFront(e: Event, stream: seq<Action>, sync: Trace, r: Response)
    requires Position(e) < 7 && Proper(stream, Position(e) + 1)
    ensures Proper([Emit(e)] + stream, Position(e)) && Work([Emit(e)] + stream) == Work(stream)
    ensures Turns([Emit(e)] + stream) == Turns(stream)
    ensures Agree(stream, sync, Noted(r, e)) ==> Agree([Emit(e)] + stream, sync, r)
  {
    FirstAction(Emit(e), stream);
    OrderedFirst(e, Events(stream), Position(e));
    if Agree(stream, sync, Noted(r, e)) {
      NotedInFront(e, stream, sync, r);
    }
  }

  /** The same piece of work in front of both. */
  lemma {:induction false} WorkInFront(a: Action, stream: seq<Action>, sync: Trace, r: Response, k: nat)
    requires !a.Persist? && !a.Emit? && Proper(stream, k)
    ensures Proper([a] + stream, k) && Work([a] + stream) == [a] + Work(stream)
    ensures Turns([a] + stream) == Turns(stream)
    ensures Work(Then(a, sync).log) == [a] + Work(sync.log) && Turns(Then(a, sync).log) == Turns(sync.log)
    ensures Agree(stream, sync, r) ==> Agree([a] + stream, Then(a, sync), r)
  {
    FirstAction(a, stream);
    FirstAction(a, sync.log);
    assert Events([a] + stream) == Events(stream);
  }

  lemma {:induction false} NarrateAgrees(o: Outcomes, sql: string, v: Verdict, c: ChartOutput, w: seq<string>,
                                         r: Response)
    requires r == PLAIN.(sql := Some(sql), rowEstimate := v.rowEstimate, chartSpec := c.spec, image := c.image,
                         svg := c.svg)
    ensures var stream, sync := StreamNarrate(o, sql, c, w), SyncNarrate(o, sql, v, c, w);
            Proper(stream, 6) && Agree(stream, sync, r) && Work(stream) == Work(sync.log) == []
            && |Turns(sync.log)| == 1
  {
    match o.narrate
    case Raised(m) => FailedAgrees(w, m, r, 6);
    case Returned(n) =>
      var narrative, done := Narrative(n.text, n.warnings), Done("complete", None, None, w + n.warnings);
      var content, sync := Content(n, c, o.base64), SyncNarrate(o, sql, v, c, w);
      ClosingAgrees(content, Some(sql), done, sync.response, Noted(r, narrative), 7);
      EventInFront(narrative, Closing(content, Some(sql), done), sync, r);
  }

  lemma {:induction false} ChartAgrees(o: Outcomes, sql: string, v: Verdict, rows: Rows, w: seq<string>, r: Response)
    requires r == PLAIN.(sql := Some(sql), rowEstimate := v.rowEstimate)
    ensures var stream, sync := StreamChart(o, sql, rows, w), SyncChart(o, sql, v, rows, w);
            Proper(stream, 5) && Agree(stream, sync, r) && Shows(stream, rows) && Shows(sync.log, rows)
            && |Turns(sync.log)| == 1
  {
    match o.chart
    case Raised(m) => FailedAgrees(w, m, r, 5);
    case Returned(c) =>
      var chart := Chart(c.spec, c.image, c.svg, c.warnings);
      var stream, sync := StreamNarrate(o, sql, c, w + c.warnings), SyncNarrate(o, sql, v, c, w + c.warnings);
      NarrateAgrees(o, sql, v, c, w + c.warnings, Noted(r, chart));
      WorkInFront(ToNarrative(rows), stream, sync, Noted(r, chart), 6);
      EventInFront(chart, [ToNarrative(rows)] + stream, Then(ToNarrative(rows), sync), r);
  }

  lemma {:induction false} NoDataAgrees(sql: string, v: Verdict, x: Executed, w: seq<string>, r: Response, o: Outcomes)
    requires x.rows == None || x.rows == Some([])
    ensures var stream := StreamPresent(o, sql, x, w);
            Proper(stream, 4) && Work(stream) == [] && Turns(stream) == [Turn("assistant", NO_DATA, Some(sql))]
    ensures x.rows.None? ==> var sync := SyncPresent(o, sql, v, x, w);
            Agree(StreamPresent(o, sql, x, w), sync, r) && Work(sync.log) == [] && |Turns(sync.log)| == 1
  {
    var w := w + x.warnings;
    var data, done := Data(0, Preview([]), x.warnings), Done("no_data", None, None, w);
    var response := PLAIN.(sql := Some(sql), warnings := w + [NO_DATA]);
    ClosingAgrees(NO_DATA, Some(sql), done, response, Noted(r, data), 5);
    ClosingLog(NO_DATA, Some(sql), done);
    EventInFront(data, Closing(NO_DATA, Some(sql), done), Answer(NO_DATA, Some(sql), response), r);
  }

  lemma {:induction false} RowsAgree(o: Outcomes, sql: string, v: Verdict, rows: Rows, w: seq<string>, data: Event,
                                     r: Response)
    requires r == PLAIN.(sql := Some(sql), rowEstimate := v.rowEstimate) && data.Data?
    ensures var rest := [ToChart(rows)] + StreamChart(o, sql, rows, w);
            var sync := Then(ToChart(rows), SyncChart(o, sql, v, rows, w));
            Shows(sync.log, rows) && |Turns(sync.log)| == 1
            && Proper([Emit(data)] + rest, 4) && Shows([Emit(data)] + rest, rows) && Agree([Emit(data)] + rest, sync, r)
  {
    var rest, restSync := StreamChart(o, sql, rows, w), SyncChart(o, sql, v, rows, w);
    ChartAgrees(o, sql, v, rows, w, r);
    WorkInFront(ToChart(rows), rest, restSync, r, 5);
    EventInFront(data, [ToChart(rows)] + rest, Then(ToChart(rows), restSync), r);
  }

  lemma {:induction false} PresentAgrees(o: Outcomes, sql: string, v: Verdict, x: Executed, w: seq<string>, r: Response)
    requires r == PLAIN.(sql := Some(sql), rowEstimate := v.rowEstimate)
    ensures var stream, sync := StreamPresent(o, sql, x, w), SyncPresent(o, sql, v, x, w);
            Proper(stream, 4) && |Turns(sync.log)| == 1
            && (if x.rows.None? then Work(stream) == Work(sync.log) == []
                else Shows(stream, x.rows.value) && Shows(sync.log, x.rows.value))
            && (x.rows != Some([]) ==> Agree(stream, sync, r))
            && (x.rows == Some([]) ==> Turns(stream) == [Turn("assistant", NO_DATA, Some(sql))])
  {
    if x.rows.None? || x.rows.value == [] {
      NoDataAgrees(sql, v, x, w, r, o);
    }
    if x.rows.Some? {
      var rows := x.rows.value;
      RowsAgree(o, sql, v, rows, w + x.warnings, Data(|rows|, Preview(rows), x.warnings), r);
    }
  }

  /** The verdict lets the query run. */
  predicate Passes(i: Input, v: Verdict)
  {
    v.valid && (v.requiresConfirmation ==> i.confirmed)
  }

  /** What a run may do once SQL is generated: validate it, and only if it passes execute the validated
      form, and then show the agents nothing but the rows that the execution gave. */
  ghost predicate Gated(work: seq<Action>, i: Input, o: Outcomes, env: Env, sql: string)
  {
    work == [Validate(sql)]
    || (o.validate.Returned? && Passes(i, o.validate.value) && |work| >= 2
        && work[0] == Validate(sql)
        && var run := Or(o.validate.value.validatedSql, sql);
        work[1] == Execute(run)
        && forall j :: 2 <= j < |work| ==>
             ExecuteResult(env, run).rows.Some?
             && (work[j] == ToChart(ExecuteResult(env, run).rows.value)
                 || work[j] == ToNarrative(ExecuteResult(env, run).rows.value)))
  }

  /** The execution that a run reaches gives an empty row set. */
  predicate EmptyBehind(i: Input, o: Outcomes, env: Env, sql: string)
  {
    o.validate.Returned? && Passes(i, o.validate.value)
    && ExecuteResult(env, Or(o.validate.value.validatedSql, sql)).rows == Some([])
  }

  lemma {:induction false} VerdictAgrees(i: Input, o: Outcomes, env: Env, sql: string, w: seq<string>, r: Response)
    requires o.validate.Returned? && r == PLAIN.(sql := Some(sql), rowEstimate := o.validate.value.rowEstimate)
    ensures var stream := StreamVerdict(i, o, env, sql, o.validate.value, w + o.validate.value.warnings);
            var sync := SyncValidate(i, o, env, sql, w);
            Proper(stream, 4) && |Turns(sync.log)| == 1
            && Gated([Validate(sql)] + Work(stream), i, o, env, sql)
            && Gated([Validate(sql)] + Work(sync.log), i, o, env, sql)
            && (!EmptyBehind(i, o, env, sql) ==> Agree(stream, sync, r))
            && (EmptyBehind(i, o, env, sql) ==> Turns(stream) == [Turn("assistant", NO_DATA, Some(sql))])
  {
    var v := o.validate.value;
    var w := w + v.warnings;
    if !v.valid {
      ClosingAgrees(UNSAFE, Some(sql), Done("validation_failed", None, None, w),
                    PLAIN.(sql := Some(sql), warnings := w + [UNSAFE]), r, 4);
    } else if v.requiresConfirmation && !i.confirmed {
      ClosingAgrees(UNCONFIRMED, Some(sql), Done("confirmation_required", None, Some(v.rowEstimate), w),
                    PLAIN.(sql := Some(sql), warnings := w, requiresConfirmation := true,
                           rowEstimate := v.rowEstimate), r, 4);
    } else {
      var run := Or(v.validatedSql, sql);
      var x := ExecuteResult(env, run);
      PresentAgrees(o, sql, v, x, w, r);
      WorkInFront(Execute(run), StreamPresent(o, sql, x, w), SyncPresent(o, sql, v, x, w), r, 4);
      ShownIsGated(i, o, env, sql, Work(StreamPresent(o, sql, x, w)));
      ShownIsGated(i, o, env, sql, Work(SyncPresent(o, sql, v, x, w).log));
    }
  }

  lemma {:induction false} ShownIsGated(i: Input, o: Outcomes, env: Env, sql: string, work: seq<Action>)
    requires o.validate.Returned? && Passes(i, o.validate.value)
    requires var rows := ExecuteResult(env, Or(o.validate.value.validatedSql, sql)).rows;
             if rows.None? then work == []
             else forall a :: a in work ==> a == ToChart(rows.value) || a == ToNarrative(rows.value)
    ensures Gated([Validate(sql)] + ([Execute(Or(o.validate.value.validatedSql, sql))] + work), i, o, env, sql)
  {
    var all := [Validate(sql)] + ([Execute(Or(o.validate.value.validatedSql, sql))] + work);
    forall j | 2 <= j < |all| ensures all[j] in work {
      assert all[j] == work[j - 2];
    }
  }

  lemma {:induction false} ValidateAgrees(i: Input, o: Outcomes, env: Env, sql: string, w: seq<string>, r: Response)
    requires r == PLAIN.(sql := Some(sql))
    ensures var stream := [Validate(sql)] + StreamValidate(i, o, env, sql, w);
            var sync := Then(Validate(sql), SyncValidate(i, o, env, sql, w));
            Proper(stream, 3) && |Turns(sync.log)| == 1
            && Gated(Work(stream), i, o, env, sql) && Gated(Work(sync.log), i, o, env, sql)
            && (!EmptyBehind(i, o, env, sql) ==> Agree(stream, sync, r))
            && (EmptyBehind(i, o, env, sql) ==> Turns(stream) == [Turn("assistant", NO_DATA, Some(sql))])
  {
    var stream, sync := StreamValidate(i, o, env, sql, w), SyncValidate(i, o, env, sql, w);
    match o.validate
    case Raised(m) =>
      FailedAgrees(w, m, r, 3);
      WorkInFront(Validate(sql), stream, sync, r, 3);
    case Returned(v) =>
      VerdictAgrees(i, o, env, sql, w, Noted(r, Validation(v)));
      var rest := StreamVerdict(i, o, env, sql, v, w + v.warnings);
      EventInFront(Validation(v), rest, sync, r);
      WorkInFront(Validate(sql), stream, sync, r, 3);
  }

  /** All that a run may do besides persisting and emitting. */
  ghost predicate MayDo(work: seq<Action>, i: Input, o: Outcomes, env: Env)
  {
    work == []
    || (o.generate.Returned? && o.generate.value.sql.Some? && Gated(work, i, o, env, o.generate.value.sql.value))
  }

  predicate EmptyBehindGenerate(i: Input, o: Outcomes, env: Env)
  {
    o.generate.Returned? && Or(o.generate.value.sql, "") != "" && EmptyBehind(i, o, env, o.generate.value.sql.value)
  }

  /** The query was executed and its result is the empty list. */
  predicate ReturnsNothing(i: Input, o: Outcomes, env: Env)
  {
    o.route.Returned? && (o.route.value.intent == KNOWLEDGE ==> o.wiki == Returned(None))
    && EmptyBehindGenerate(i, o, env)
  }

  lemma {:induction false} GenerateAgrees(i: Input, o: Outcomes, env: Env)
    ensures var stream, sync := StreamGenerate(i, o, env), SyncGenerate(i, o, env);
            Proper(stream, 2) && |Turns(sync.log)| == 1
            && MayDo(Work(stream), i, o, env) && MayDo(Work(sync.log), i, o, env)
            && (!EmptyBehindGenerate(i, o, env) ==> Agree(stream, sync, PLAIN))
            && (EmptyBehindGenerate(i, o, env) ==> Turns(stream) == [Turn("assistant", NO_DATA, o.generate.value.sql)])
  {
    match o.generate
    case Raised(m) => FailedAgrees([], m, PLAIN, 2);
    case Returned(g) =>
      var event := Sql(g.sql, g.warnings);
      if Or(g.sql, "") == "" {
        var done, response := Done("no_sql", None, None, g.warnings), PLAIN.(warnings := g.warnings + [NO_SQL]);
        ClosingAgrees(NO_SQL, None, done, response, Noted(PLAIN, event), 3);
        EventInFront(event, Closing(NO_SQL, None, done), Answer(NO_SQL, None, response), PLAIN);
      } else {
        var sql := g.sql.value;
        ValidateAgrees(i, o, env, sql, g.warnings, Noted(PLAIN, event));
        EventInFront(event, [Validate(sql)] + StreamValidate(i, o, env, sql, g.warnings),
                     Then(Validate(sql), SyncValidate(i, o, env, sql, g.warnings)), PLAIN);
      }
  }

  /** The words of the event grammar: the stages in order, cut short anywhere before done, or the
      answer from the knowledge base. */
  ghost predicate Word(events: seq<Event>)
  {
    (|events| >= 2 && Ordered(events, 0))
    || (|events| == 4 && events[0].Start? && events[1].Intent? && events[2].Narrative? && events[3].Done?
        && events[3].status == "complete")
  }

  lemma {:induction false} RouteAgrees(i: Input, o: Outcomes, env: Env)
    ensures var stream, sync := StreamRoute(i, o, env), SyncRoute(i, o, env);
            Word([Start(i.query, i.session, i.conversation)] + Events(stream))
            && |Turns(stream)| == 1 && |Turns(sync.log)| == 1 && Turns(stream)[0].role == "assistant"
            && MayDo(Work(stream), i, o, env) && MayDo(Work(sync.log), i, o, env)
            && (!ReturnsNothing(i, o, env) ==> Agree(stream, sync, PLAIN))
            && (ReturnsNothing(i, o, env) ==> Turns(stream) == [Turn("assistant", NO_DATA, o.generate.value.sql)])
  {
    var start := Start(i.query, i.session, i.conversation);
    match o.route
    case Raised(m) =>
      FailedAgrees([], m, PLAIN, 1);
      OrderedFirst(start, Events(StreamFailed([], m)), 0);
    case Returned(r) =>
      var intent := Intent(r.intent, r.plan);
      if r.intent == KNOWLEDGE && o.wiki.Raised? {
        FailedAgrees([], o.wiki.message, PLAIN, 2);
        StartInFront(start, intent, StreamFailed([], o.wiki.message), SyncRoute(i, o, env));
      } else if r.intent == KNOWLEDGE && o.wiki.value.Some? {
        KnowledgeAgrees(o.wiki.value.value, intent);
      } else {
        GenerateAgrees(i, o, env);
        StartInFront(start, intent, StreamGenerate(i, o, env), SyncGenerate(i, o, env));
      }
  }

  lemma {:induction false} StartInFront(start: Event, intent: Event, stream: seq<Action>, sync: Trace)
    requires start.Start? && intent.Intent? && Proper(stream, 2)
    ensures var all := [Emit(intent)] + stream;
            Word([start] + Events(all)) && Turns(all) == Turns(stream) && Work(all) == Work(stream)
            && (Agree(stream, sync, PLAIN) ==> Agree(all, sync, PLAIN))
  {
    EventInFront(intent, stream, sync, PLAIN);
    OrderedFirst(start, Events([Emit(intent)] + stream), 0);
  }

  lemma {:induction false} KnowledgeAgrees(answer: string, intent: Event)
    requires intent.Intent?
    ensures var done := Done("complete", None, None, []);
            var stream := [Emit(intent)] + ([Emit(Narrative(Some(answer), []))] + Closing(answer, None, done));
            Events(stream) == [intent, Narrative(Some(answer), []), done] && Work(stream) == []
            && Turns(stream) == [Turn("assistant", answer, None)]
            && Agree(stream, Answer(answer, None, PLAIN.(narrative := Some(answer))), PLAIN)
            && Work(Answer(answer, None, PLAIN.(narrative := Some(answer))).log) == []
            && |Turns(Answer(answer, None, PLAIN.(narrative := Some(answer))).log)| == 1
  {
    var done, narrative := Done("complete", None, None, []), Narrative(Some(answer), []);
    var response := PLAIN.(narrative := Some(answer));
    var closing, sync := Closing(answer, None, done), Answer(answer, None, response);
    ClosingAgrees(answer, None, done, response, response, 7);
    ClosingLog(answer, None, done);
    NotedInFront(narrative, closing, sync, PLAIN);
    NotedInFront(intent, [Emit(narrative)] + closing, sync, PLAIN);
    FirstAction(Emit(intent), [Emit(narrative)] + closing);
    FirstAction(Emit(narrative), closing);
  }

  // ---------- the theorems about the two runs ----------

  /** The two runs in terms of what follows the user's turn and the start. */
  lemma {:induction false} Beginning(i: Input, o: Outcomes, env: Env, stream: seq<Action>, sync: Trace)
    requires stream == StreamRoute(i, o, env) && sync == SyncRoute(i, o, env)
    ensures Turns(Stream(i, o, env)) == [Turn("user", i.query, None)] + Turns(stream)
    ensures Events(Stream(i, o, env)) == [Start(i.query, i.session, i.conversation)] + Events(stream)
    ensures Work(Stream(i, o, env)) == Work(stream)
    ensures Turns(Sync(i, o, env).log) == [Turn("user", i.query, None)] + Turns(sync.log)
    ensures Work(Sync(i, o, env).log) == Work(sync.log) && Sync(i, o, env).response == sync.response
  {
    var turn, start := Persist(Turn("user", i.query, None)), Emit(Start(i.query, i.session, i.conversation));
    FirstAction(turn, [start] + stream);
    FirstAction(start, stream);
    FirstAction(turn, sync.log);
  }

  /** Every streaming run emits a word of the event grammar: one done, and it is last. */
  lemma {:induction false} StreamEmitsAWord(i: Input, o: Outcomes, env: Env)
    ensures Word(Events(Stream(i, o, env)))
  {
    RouteAgrees(i, o, env);
    Beginning(i, o, env, StreamRoute(i, o, env), SyncRoute(i, o, env));
  }

  /** Both runs persist the user's turn and then exactly one assistant turn, whatever fails. */
  lemma {:induction false} OneTurnEach(i: Input, o: Outcomes, env: Env)
    ensures var stream, sync := Turns(Stream(i, o, env)), Turns(Sync(i, o, env).log);
            |stream| == 2 && |sync| == 2 && stream[0] == sync[0] == Turn("user", i.query, None)
            && stream[1].role == sync[1].role == "assistant"
            && stream == [stream[0]] + Turns(StreamRoute(i, o, env))
            && sync == [sync[0]] + Turns(SyncRoute(i, o, env).log)
  {
    RouteAgrees(i, o, env);
    if ReturnsNothing(i, o, env) {
      EmptyTurn(i, o, env);
    }
    Beginning(i, o, env, StreamRoute(i, o, env), SyncRoute(i, o, env));
  }

  /** Unless the query result is an empty list, both runs persist the same turns and do the same work,
      and the events tell the response. */
  lemma {:induction false} RunsAgree(i: Input, o: Outcomes, env: Env)
    requires !ReturnsNothing(i, o, env)
    ensures Turns(Stream(i, o, env)) == Turns(Sync(i, o, env).log)
            && Work(Stream(i, o, env)) == Work(Sync(i, o, env).log)
    ensures Tells(PLAIN, Events(Stream(i, o, env)), Turns(Stream(i, o, env))[1..], Sync(i, o, env).response)
  {
    RouteAgrees(i, o, env);
    Beginning(i, o, env, StreamRoute(i, o, env), SyncRoute(i, o, env));
    var events, turns := Events(StreamRoute(i, o, env)), Turns(StreamRoute(i, o, env));
    TellsFromStart(Start(i.query, i.session, i.conversation), events, turns, Sync(i, o, env).response);
    assert ([Turn("user", i.query, None)] + turns)[1..] == turns;
  }

  lemma {:induction false} TellsFromStart(start: Event, events: seq<Event>, turns: seq<Turn>, response: Response)
    requires start.Start? && Tells(PLAIN, events, turns, response)
    ensures Tells(PLAIN, [start] + events, turns, response)
  {
    CollectedFirst(PLAIN, start, events);
  }

  /** The assistant's turn of the run with one response, for an empty result. */
  lemma {:induction false} EmptyTurn(i: Input, o: Outcomes, env: Env)
    requires ReturnsNothing(i, o, env)
    ensures Turns(SyncRoute(i, o, env).log)
         == [if o.chart.Raised? then Turn("assistant", "Pipeline error: " + o.chart.message, None)
             else if o.narrate.Raised? then Turn("assistant", "Pipeline error: " + o.narrate.message, None)
             else Turn("assistant", Content(o.narrate.value, o.chart.value, o.base64), o.generate.value.sql)]
  {
    var g, v := o.generate.value, o.validate.value;
    var sql, run := g.sql.value, Or(v.validatedSql, g.sql.value);
    var w := g.warnings + v.warnings + ExecuteResult(env, run).warnings;
    var chart := SyncChart(o, sql, v, [], w);
    if o.chart.Raised? {
      OneAction(chart.log[0]);
    } else {
      var narrate := SyncNarrate(o, sql, v, o.chart.value, w + o.chart.value.warnings);
      OneAction(narrate.log[0]);
      FirstAction(ToNarrative([]), narrate.log);
    }
    var present := Then(ToChart([]), chart);
    FirstAction(ToChart([]), chart.log);
    FirstAction(Execute(run), present.log);
    FirstAction(Validate(sql), Then(Execute(run), present).log);
  }

  /** The two runs persist the same turns exactly when the result is not an empty list, or the narrative
      that the one run goes on to write happens to be the other's message. */
  lemma {:induction false} TurnsAgreeExactly(i: Input, o: Outcomes, env: Env)
    ensures Turns(Stream(i, o, env)) == Turns(Sync(i, o, env).log)
            <==> !ReturnsNothing(i, o, env)
                 || (o.chart.Returned? && o.narrate.Returned?
                     && Content(o.narrate.value, o.chart.value, o.base64) == NO_DATA)
  {
    OneTurnEach(i, o, env);
    RouteAgrees(i, o, env);
    if ReturnsNothing(i, o, env) {
      EmptyTurn(i, o, env);
      assert Turns(Stream(i, o, env))[1] == Turn("assistant", NO_DATA, o.generate.value.sql);
      assert Turns(Sync(i, o, env).log)[1] == Turns(SyncRoute(i, o, env).log)[0];
    } else {
      RunsAgree(i, o, env);
    }
  }

  /** SQL runs only behind a passing verdict on the generated query, in its validated form, and the
      agents see only the rows which that execution gave. */
  lemma {:induction false} RunsAreGated(i: Input, o: Outcomes, env: Env)
    ensures MayDo(Work(Stream(i, o, env)), i, o, env) && MayDo(Work(Sync(i, o, env).log), i, o, env)
  {
    RouteAgrees(i, o, env);
    Beginning(i, o, env, StreamRoute(i, o, env), SyncRoute(i, o, env));
  }

  // ---------- a run whose result is empty ----------

  const QUESTION := Input("Sales in May?", "session", "conversation", false)

  /** Every stage does well, and the narrative is about nothing. */
  const ANSWERS := Outcomes(Returned(Routed("chat_data", [])), Returned(None),
                            Returned(Generated(Some("select 1"), [])),
                            Returned(Verdict(true, [], None, false, None)), Returned(ChartOutput(None, None, None, [])),
                            Returned(NarrativeOutput(Some("Nothing"), [])), (svg: string) => svg)

  const NO_ROWS := Env(map[], (sql: string) => Returned([]), (sql: string) => sql, (rows: Rows) => rows)

  /** The one run persists the narrative, the other the message that there is no data. */
  lemma {:induction false} EmptyResultDiverges()
    ensures ReturnsNothing(QUESTION, ANSWERS, NO_ROWS)
    ensures Turns(Sync(QUESTION, ANSWERS, NO_ROWS).log)[1..] == [Turn("assistant", "Nothing", Some("select 1"))]
    ensures Turns(Stream(QUESTION, ANSWERS, NO_ROWS))[1..] == [Turn("assistant", NO_DATA, Some("select 1"))]
  {
    assert "chat_data"[5] != KNOWLEDGE[5];
    EmptyTurn(QUESTION, ANSWERS, NO_ROWS);
    RouteAgrees(QUESTION, ANSWERS, NO_ROWS);
    OneTurnEach(QUESTION, ANSWERS, NO_ROWS);
  }
}

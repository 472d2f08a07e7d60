/** How a run ends, told by one list of conditions on the outcomes of its stages, and what the client, the
    caller and a resumed conversation are left with. */
module ChatEndings {
  import opened Wrappers
  import opened ChatPipeline
  import opened ChatMessage

  datatype Ending =
    | Broke(message: string, warnings: seq<string>)
    | FromWiki(answer: string)
    | NoSql(warnings: seq<string>)
    | Unsafe(sql: string, warnings: seq<string>)
    | Unconfirmed(sql: string, estimate: Option<int>, warnings: seq<string>)
    | NoRows(sql: string, warnings: seq<string>)
    | Complete(sql: string, warnings: seq<string>, estimate: Option<int>, chart: ChartOutput,
               narrative: NarrativeOutput, base64: string -> string)

  predicate AsksWiki(o: Outcomes)
  {
    o.route.Returned? && o.route.value.intent == "chat_knowledge"
  }

  predicate HasSql(o: Outcomes)
  {
    o.generate.Returned? && o.generate.value.sql.Some? && o.generate.value.sql.value != ""
  }

  /** The SQL that is executed: the validator's, if it has one, and the generated one otherwise. */
  function Runs(o: Outcomes): string
    requires HasSql(o) && o.validate.Returned?
  {
    match o.validate.value.validatedSql
    case Some(s) => if s != "" then s else o.generate.value.sql.value
    case None => o.generate.value.sql.value
  }

  /** The rows under the query's key if there are any, and otherwise the source's, masked. */
  function Fetched(env: Env, sql: string): Try<Rows>
  {
    if env.normal(sql) in env.cached then Returned(env.cached[env.normal(sql)])
    else if env.source(sql).Returned? then Returned(env.mask(env.source(sql).value))
    else env.source(sql)
  }

  function Trouble(rows: Try<Rows>): seq<string>
  {
    if rows.Raised? then ["Query execution failed: " + rows.message] else []
  }

  /** The first of these conditions that holds decides. */
  function EndOf(i: Input, o: Outcomes, env: Env, streaming: bool): Ending
  {
    if o.route.Raised? then Broke(o.route.message, [])
    else if AsksWiki(o) && o.wiki.Raised? then Broke(o.wiki.message, [])
    else if AsksWiki(o) && o.wiki.value.Some? then FromWiki(o.wiki.value.value)
    else if o.generate.Raised? then Broke(o.generate.message, [])
    else
      var w := o.generate.value.warnings;
      if !HasSql(o) then NoSql(w)
      else if o.validate.Raised? then Broke(o.validate.message, w)
      else
        var sql, v := o.generate.value.sql.value, o.validate.value;
        var w := w + v.warnings;
        if !v.valid then Unsafe(sql, w)
        else if v.requiresConfirmation && !i.confirmed then Unconfirmed(sql, v.rowEstimate, w)
        else
          var rows := Fetched(env, Runs(o));
          var w := w + Trouble(rows);
          if rows.Raised? || (streaming && rows.value == []) then NoRows(sql, w)
          else if o.chart.Raised? then Broke(o.chart.message, w)
          else if o.narrate.Raised? then Broke(o.narrate.message, w + o.chart.value.warnings)
          else Complete(sql, w + o.chart.value.warnings + o.narrate.value.warnings, v.rowEstimate, o.chart.value,
                        o.narrate.value, o.base64)
  }

  // ---------- what is left behind ----------

  /** The assistant's turn; that of a completed run can be read back into narrative and picture. */
  ghost predicate IsTurn(t: Turn, e: Ending)
  {
    t.role == "assistant"
    && match e
       case Broke(m, _) => t.content == "Pipeline error: " + m && t.sql == None
       case FromWiki(answer) => t.content == answer && t.sql == None
       case NoSql(_) => t.content == "Could not generate SQL for this query" && t.sql == None
       case Unsafe(sql, _) => t.content == "Generated SQL failed safety validation" && t.sql == Some(sql)
       case Unconfirmed(sql, _, _) =>
         t.content == "Confirmation required before running this large query" && t.sql == Some(sql)
       case NoRows(sql, _) => t.content == "Query execution returned no data" && t.sql == Some(sql)
       case Complete(sql, _, _, c, n, base64) => t.sql == Some(sql) && Carries(t.content, n, c, base64)
  }

  /** The last event. */
  function EndEvent(e: Ending): Event
  {
    match e
    case Broke(m, w) => Done("error", Some(m), None, w)
    case FromWiki(_) => Done("complete", None, None, [])
    case NoSql(w) => Done("no_sql", None, None, w)
    case Unsafe(_, w) => Done("validation_failed", None, None, w)
    case Unconfirmed(_, estimate, w) => Done("confirmation_required", None, Some(estimate), w)
    case NoRows(_, w) => Done("no_data", None, None, w)
    case Complete(_, w, _, _, _, _) => Done("complete", None, None, w)
  }

  function EndResponse(e: Ending): Response
  {
    match e
    case Broke(m, w) => Response(None, None, None, None, None, w + ["Pipeline error: " + m], false, None)
    case FromWiki(answer) => Response(None, None, Some(answer), None, None, [], false, None)
    case NoSql(w) =>
      Response(None, None, None, None, None, w + ["Could not generate SQL for this query"], false, None)
    case Unsafe(sql, w) =>
      Response(Some(sql), None, None, None, None, w + ["Generated SQL failed safety validation"], false, None)
    case Unconfirmed(sql, estimate, w) => Response(Some(sql), None, None, None, None, w, true, estimate)
    case NoRows(sql, w) =>
      Response(Some(sql), None, None, None, None, w + ["Query execution returned no data"], false, None)
    case Complete(sql, w, estimate, c, n, _) => Response(Some(sql), c.spec, n.text, c.image, c.svg, w, false, estimate)
  }

  /** An event says what the input or its stage's outcome says. */
  ghost predicate Honest(e: Event, i: Input, o: Outcomes, env: Env)
  {
    match e
    case Start(query, session, conversation) =>
      query == i.query && session == i.session && conversation == i.conversation
    case Intent(intent, plan) => o.route == Returned(Routed(intent, plan))
    case Sql(sql, w) => o.generate == Returned(Generated(sql, w))
    case Validation(v) => o.validate == Returned(v)
    case Data(count, preview, w) =>
      HasSql(o) && o.validate.Returned?
      && var rows := Fetched(env, Runs(o));
      w == Trouble(rows)
      && if rows.Raised? then count == 0 && preview == []
         else count == |rows.value| && preview <= rows.value && |preview| == if count < 5 then count else 5
    case Chart(spec, image, svg, w) => o.chart == Returned(ChartOutput(spec, image, svg, w))
    case Narrative(text, w) =>
      if AsksWiki(o) && o.wiki.Returned? && o.wiki.value.Some? then text == o.wiki.value && w == []
      else o.narrate == Returned(NarrativeOutput(text, w))
    case Done(_, _, _, _) => true
  }

  ghost predicate AllHonest(log: seq<Action>, i: Input, o: Outcomes, env: Env)
  {
    forall a :: a in log && a.Emit? ==> Honest(a.event, i, o, env)
  }

  /** One turn and one last event. */
  ghost predicate EndsIn(log: seq<Action>, e: Ending)
  {
    |Turns(log)| == 1 && IsTurn(Turns(log)[0], e)
    && Events(log) != [] && Events(log)[|Events(log)| - 1] == EndEvent(e)
  }

  /** A part of a log up to the end of a run. */
  ghost predicate Ends(log: seq<Action>, i: Input, o: Outcomes, env: Env)
  {
    AllHonest(log, i, o, env) && EndsIn(log, EndOf(i, o, env, true))
  }

  lemma {:induction false} HonestFirst(a: Action, rest: seq<Action>, i: Input, o: Outcomes, env: Env)
    requires AllHonest(rest, i, o, env) && (a.Emit? ==> Honest(a.event, i, o, env))
    ensures AllHonest([a] + rest, i, o, env)
  {
  }

  lemma {:induction false} EndsInFirst(a: Action, rest: seq<Action>, e: Ending)
    requires EndsIn(rest, e) && !a.Persist?
    ensures EndsIn([a] + rest, e)
  {
    SameEnd(a, rest);
  }

  lemma {:induction false} SameEnd(a: Action, rest: seq<Action>)
    requires !a.Persist? && Events(rest) != []
    ensures Turns([a] + rest) == Turns(rest) && Events([a] + rest) != []
    ensures Events([a] + rest)[|Events([a] + rest)| - 1] == Events(rest)[|Events(rest)| - 1]
  {
    FirstAction(a, rest);
  }

  lemma {:induction false} EndsFirst(a: Action, rest: seq<Action>, i: Input, o: Outcomes, env: Env)
    requires Ends(rest, i, o, env) && !a.Persist? && (a.Emit? ==> Honest(a.event, i, o, env))
    ensures Ends([a] + rest, i, o, env)
  {
    HonestFirst(a, rest, i, o, env);
    EndsInFirst(a, rest, EndOf(i, o, env, true));
  }

  lemma {:induction false} ClosingEnds(content: string, sql: Option<string>, done: Event,
                                       i: Input, o: Outcomes, env: Env)
    requires done.Done? && done == EndEvent(EndOf(i, o, env, true))
    requires IsTurn(Turn("assistant", content, sql), EndOf(i, o, env, true))
    ensures Ends(Closing(content, sql, done), i, o, env)
  {
    FirstAction(Assistant(content, sql), [Emit(done)]);
    OneAction(Emit(done));
  }

  // ---------- the streaming run, from its end to its beginning ----------

  /** The wiki has no answer. */
  predicate PastWiki(o: Outcomes)
  {
    o.route.Returned? && (AsksWiki(o) ==> o.wiki == Returned(None))
  }

  predicate PastVerdict(i: Input, o: Outcomes)
  {
    PastWiki(o) && HasSql(o) && o.validate.Returned? && o.validate.value.valid
    && (o.validate.value.requiresConfirmation ==> i.confirmed)
  }

  predicate PastRows(i: Input, o: Outcomes, env: Env)
  {
    PastVerdict(i, o) && Fetched(env, Runs(o)).Returned? && Fetched(env, Runs(o)).value != []
  }

  lemma {:induction false} NarrateEnds(i: Input, o: Outcomes, env: Env)
    requires PastRows(i, o, env) && o.chart.Returned?
    ensures Ends(StreamNarrate(o, o.generate.value.sql.value, o.chart.value,
                               o.generate.value.warnings + o.validate.value.warnings + [] + o.chart.value.warnings),
                 i, o, env)
  {
    var sql, c := o.generate.value.sql.value, o.chart.value;
    var w := o.generate.value.warnings + o.validate.value.warnings + [] + c.warnings;
    match o.narrate
    case Raised(m) => ClosingEnds("Pipeline error: " + m, None, Done("error", Some(m), None, w), i, o, env);
    case Returned(n) =>
      var content := Content(n, c, o.base64);
      ContentCarries(n, c, o.base64);
      var done := Done("complete", None, None, w + n.warnings);
      ClosingEnds(content, Some(sql), done, i, o, env);
      EndsFirst(Emit(Narrative(n.text, n.warnings)), Closing(content, Some(sql), done), i, o, env);
  }

  lemma {:induction false} ChartEnds(i: Input, o: Outcomes, env: Env)
    requires PastRows(i, o, env)
    ensures Ends(StreamChart(o, o.generate.value.sql.value, Fetched(env, Runs(o)).value,
                             o.generate.value.warnings + o.validate.value.warnings + []), i, o, env)
  {
    var sql, rows := o.generate.value.sql.value, Fetched(env, Runs(o)).value;
    var w := o.generate.value.warnings + o.validate.value.warnings + [];
    match o.chart
    case Raised(m) => ClosingEnds("Pipeline error: " + m, None, Done("error", Some(m), None, w), i, o, env);
    case Returned(c) =>
      var rest := StreamNarrate(o, sql, c, w + c.warnings);
      NarrateEnds(i, o, env);
      EndsFirst(ToNarrative(rows), rest, i, o, env);
      EndsFirst(Emit(Chart(c.spec, c.image, c.svg, c.warnings)), [ToNarrative(rows)] + rest, i, o, env);
  }

  /** The model's execution is the fetch, with its trouble as a warning. */
  lemma {:induction false} ExecutedIsFetched(env: Env, sql: string)
    ensures var rows := Fetched(env, sql);
            ExecuteResult(env, sql) == Executed(if rows.Returned? then Some(rows.value) else None, Trouble(rows))
  {
  }

  lemma {:induction false} PresentEnds(i: Input, o: Outcomes, env: Env)
    requires PastVerdict(i, o)
    ensures Ends(StreamPresent(o, o.generate.value.sql.value, ExecuteResult(env, Runs(o)),
                               o.generate.value.warnings + o.validate.value.warnings), i, o, env)
  {
    ExecutedIsFetched(env, Runs(o));
    var x, sql := ExecuteResult(env, Runs(o)), o.generate.value.sql.value;
    var w := o.generate.value.warnings + o.validate.value.warnings;
    var rows := if x.rows.Some? then x.rows.value else [];
    var data := Emit(Data(|rows|, Preview(rows), x.warnings));
    if rows == [] {
      var done := Done("no_data", None, None, w + x.warnings);
      ClosingEnds(NO_DATA, Some(sql), done, i, o, env);
      EndsFirst(data, Closing(NO_DATA, Some(sql), done), i, o, env);
    } else {
      var rest := StreamChart(o, sql, rows, w + x.warnings);
      ChartEnds(i, o, env);
      EndsFirst(ToChart(rows), rest, i, o, env);
      EndsFirst(data, [ToChart(rows)] + rest, i, o, env);
    }
  }

  lemma {:induction false} VerdictEnds(i: Input, o: Outcomes, env: Env)
    requires PastWiki(o) && HasSql(o) && o.validate.Returned?
    ensures Ends(StreamVerdict(i, o, env, o.generate.value.sql.value, o.validate.value,
                               o.generate.value.warnings + o.validate.value.warnings), i, o, env)
  {
    var sql, v := o.generate.value.sql.value, o.validate.value;
    var w := o.generate.value.warnings + v.warnings;
    if !v.valid {
      ClosingEnds(UNSAFE, Some(sql), Done("validation_failed", None, None, w), i, o, env);
    } else if v.requiresConfirmation && !i.confirmed {
      ClosingEnds(UNCONFIRMED, Some(sql), Done("confirmation_required", None, Some(v.rowEstimate), w), i, o, env);
    } else {
      assert Or(v.validatedSql, sql) == Runs(o);
      PresentEnds(i, o, env);
      EndsFirst(Execute(Runs(o)), StreamPresent(o, sql, ExecuteResult(env, Runs(o)), w), i, o, env);
    }
  }

  lemma {:induction false} ValidateEnds(i: Input, o: Outcomes, env: Env)
    requires PastWiki(o) && HasSql(o)
    ensures Ends(StreamValidate(i, o, env, o.generate.value.sql.value, o.generate.value.warnings), i, o, env)
  {
    var sql, w := o.generate.value.sql.value, o.generate.value.warnings;
    match o.validate
    case Raised(m) => ClosingEnds("Pipeline error: " + m, None, Done("error", Some(m), None, w), i, o, env);
    case Returned(v) =>
      VerdictEnds(i, o, env);
      EndsFirst(Emit(Validation(v)), StreamVerdict(i, o, env, sql, v, w + v.warnings), i, o, env);
  }

  lemma {:induction false} GenerateEnds(i: Input, o: Outcomes, env: Env)
    requires PastWiki(o)
    ensures Ends(StreamGenerate(i, o, env), i, o, env)
  {
    match o.generate
    case Raised(m) => ClosingEnds("Pipeline error: " + m, None, Done("error", Some(m), None, []), i, o, env);
    case Returned(g) =>
      var event := Emit(Sql(g.sql, g.warnings));
      if HasSql(o) {
        var rest := StreamValidate(i, o, env, g.sql.value, g.warnings);
        ValidateEnds(i, o, env);
        EndsFirst(Validate(g.sql.value), rest, i, o, env);
        EndsFirst(event, [Validate(g.sql.value)] + rest, i, o, env);
      } else {
        var done := Done("no_sql", None, None, g.warnings);
        ClosingEnds(NO_SQL, None, done, i, o, env);
        EndsFirst(event, Closing(NO_SQL, None, done), i, o, env);
      }
  }

  lemma {:induction false} KnowledgeEnds(i: Input, o: Outcomes, env: Env)
    requires o.route.Returned?
    ensures Ends(StreamKnowledge(i, o, env, o.route.value), i, o, env)
  {
    if PastWiki(o) {
      GenerateEnds(i, o, env);
    } else if o.wiki.Raised? {
      ClosingEnds("Pipeline error: " + o.wiki.message, None, Done("error", Some(o.wiki.message), None, []), i, o, env);
    } else {
      var answer, done := o.wiki.value, Done("complete", None, None, []);
      ClosingEnds(answer.value, None, done, i, o, env);
      EndsFirst(Emit(Narrative(answer, [])), Closing(answer.value, None, done), i, o, env);
    }
  }

  lemma {:induction false} RouteEnds(i: Input, o: Outcomes, env: Env)
    ensures Ends(StreamRoute(i, o, env), i, o, env)
  {
    match o.route
    case Raised(m) => ClosingEnds("Pipeline error: " + m, None, Done("error", Some(m), None, []), i, o, env);
    case Returned(r) =>
      KnowledgeEnds(i, o, env);
      EndsFirst(Emit(Intent(r.intent, r.plan)), StreamKnowledge(i, o, env, r), i, o, env);
  }

  /** Every streaming run: each event says what the input or its stage said, the turns are the question and the
      answer that the ending calls for, and the last event names that ending, with the warnings of all stages
      passed and, if one broke, its message. */
  lemma {:induction false} StreamEnds(i: Input, o: Outcomes, env: Env)
    ensures var e, log := EndOf(i, o, env, true), Stream(i, o, env);
            AllHonest(log, i, o, env)
            && |Turns(log)| == 2 && Turns(log)[0] == Turn("user", i.query, None) && IsTurn(Turns(log)[1], e)
            && Events(log) != [] && Events(log)[|Events(log)| - 1] == EndEvent(e)
  {
    var start := Emit(Start(i.query, i.session, i.conversation));
    RouteEnds(i, o, env);
    EndsFirst(start, StreamRoute(i, o, env), i, o, env);
    FirstAction(Persist(Turn("user", i.query, None)), [start] + StreamRoute(i, o, env));
  }

  // ---------- the other run ----------

  ghost predicate Returns(t: Trace, e: Ending)
  {
    |Turns(t.log)| == 1 && IsTurn(Turns(t.log)[0], e) && t.response == EndResponse(e)
  }

  lemma {:induction false} ReturnsFirst(a: Action, t: Trace, e: Ending)
    requires Returns(t, e) && !a.Persist?
    ensures Returns(Then(a, t), e)
  {
    FirstAction(a, t.log);
  }

  lemma {:induction false} AnswerReturns(content: string, sql: Option<string>, r: Response, e: Ending)
    requires IsTurn(Turn("assistant", content, sql), e) && r == EndResponse(e)
    ensures Returns(Answer(content, sql, r), e)
  {
    OneAction(Assistant(content, sql));
  }

  lemma {:induction false} FailedReturns(w: seq<string>, m: string)
    ensures Returns(Failed(w, m), Broke(m, w))
  {
    AnswerReturns("Pipeline error: " + m, None, PLAIN.(warnings := w + ["Pipeline error: " + m]), Broke(m, w));
  }

  lemma {:induction false} PresentReturns(i: Input, o: Outcomes, env: Env)
    requires PastVerdict(i, o)
    ensures Returns(SyncPresent(o, o.generate.value.sql.value, o.validate.value, ExecuteResult(env, Runs(o)),
                                o.generate.value.warnings + o.validate.value.warnings), EndOf(i, o, env, false))
  {
    ExecutedIsFetched(env, Runs(o));
    var sql, v := o.generate.value.sql.value, o.validate.value;
    var x, e := ExecuteResult(env, Runs(o)), EndOf(i, o, env, false);
    var w := o.generate.value.warnings + v.warnings + x.warnings;
    if x.rows.None? {
      AnswerReturns(NO_DATA, Some(sql), PLAIN.(sql := Some(sql), warnings := w + [NO_DATA]), e);
    } else {
      var rows := x.rows.value;
      if o.chart.Raised? {
        FailedReturns(w, o.chart.message);
      } else {
        var c := o.chart.value;
        NarrateReturns(i, o, env, w);
        ReturnsFirst(ToNarrative(rows), SyncNarrate(o, sql, v, c, w + c.warnings), e);
      }
      ReturnsFirst(ToChart(rows), SyncChart(o, sql, v, rows, w), e);
    }
  }

  lemma {:induction false} NarrateReturns(i: Input, o: Outcomes, env: Env, w: seq<string>)
    requires PastVerdict(i, o) && Fetched(env, Runs(o)).Returned? && o.chart.Returned?
    requires w == o.generate.value.warnings + o.validate.value.warnings + Trouble(Fetched(env, Runs(o)))
    ensures Returns(SyncNarrate(o, o.generate.value.sql.value, o.validate.value, o.chart.value,
                                w + o.chart.value.warnings), EndOf(i, o, env, false))
  {
    var sql, v, c := o.generate.value.sql.value, o.validate.value, o.chart.value;
    match o.narrate
    case Raised(m) => FailedReturns(w + c.warnings, m);
    case Returned(n) =>
      ContentCarries(n, c, o.base64);
      AnswerReturns(Content(n, c, o.base64), Some(sql),
                    Response(Some(sql), c.spec, n.text, c.image, c.svg, w + c.warnings + n.warnings, false,
                             v.rowEstimate),
                    EndOf(i, o, env, false));
  }

  lemma {:induction false} ValidateReturns(i: Input, o: Outcomes, env: Env)
    requires PastWiki(o) && HasSql(o)
    ensures Returns(SyncValidate(i, o, env, o.generate.value.sql.value, o.generate.value.warnings),
                    EndOf(i, o, env, false))
  {
    var sql, e := o.generate.value.sql.value, EndOf(i, o, env, false);
    match o.validate
    case Raised(m) => FailedReturns(o.generate.value.warnings, m);
    case Returned(v) =>
      var w := o.generate.value.warnings + v.warnings;
      if !v.valid {
        AnswerReturns(UNSAFE, Some(sql), PLAIN.(sql := Some(sql), warnings := w + [UNSAFE]), e);
      } else if v.requiresConfirmation && !i.confirmed {
        AnswerReturns(UNCONFIRMED, Some(sql),
                      PLAIN.(sql := Some(sql), warnings := w, requiresConfirmation := true,
                             rowEstimate := v.rowEstimate),
                      e);
      } else {
        assert Or(v.validatedSql, sql) == Runs(o);
        PresentReturns(i, o, env);
        ReturnsFirst(Execute(Runs(o)), SyncPresent(o, sql, v, ExecuteResult(env, Runs(o)), w), e);
      }
  }

  lemma {:induction false} RouteReturns(i: Input, o: Outcomes, env: Env)
    ensures Returns(SyncRoute(i, o, env), EndOf(i, o, env, false))
  {
    var e := EndOf(i, o, env, false);
    if o.route.Raised? {
      FailedReturns([], o.route.message);
    } else if PastWiki(o) {
      match o.generate
      case Raised(m) => FailedReturns([], m);
      case Returned(g) =>
        if HasSql(o) {
          ValidateReturns(i, o, env);
          ReturnsFirst(Validate(g.sql.value), SyncValidate(i, o, env, g.sql.value, g.warnings), e);
        } else {
          AnswerReturns(NO_SQL, None, PLAIN.(warnings := g.warnings + [NO_SQL]), e);
        }
    } else if o.wiki.Raised? {
      FailedReturns([], o.wiki.message);
    } else {
      AnswerReturns(o.wiki.value.value, None, PLAIN.(narrative := o.wiki.value), e);
    }
  }

  /** Every run with one response: the turns are the question and the answer that the ending calls for, and so
      is every field of the response. */
  lemma {:induction false} SyncEnds(i: Input, o: Outcomes, env: Env)
    ensures var e, t := EndOf(i, o, env, false), Sync(i, o, env);
            |Turns(t.log)| == 2 && Turns(t.log)[0] == Turn("user", i.query, None) && IsTurn(Turns(t.log)[1], e)
            && t.response == EndResponse(e)
  {
    RouteReturns(i, o, env);
    FirstAction(Persist(Turn("user", i.query, None)), SyncRoute(i, o, env).log);
  }

  // ---------- what is called on the way ----------

  /** What a run with valid SQL calls behind its execution. */
  function CallsBehind(o: Outcomes, rows: Try<Rows>, streaming: bool): seq<Action>
  {
    if rows.Raised? || (streaming && rows.value == []) then []
    else if o.chart.Raised? then [ToChart(rows.value)]
    else [ToChart(rows.value), ToNarrative(rows.value)]
  }

  /** Everything a run validates, executes and shows to the agents, in order. */
  function Calls(i: Input, o: Outcomes, env: Env, streaming: bool): seq<Action>
  {
    if !PastWiki(o) || !HasSql(o) then []
    else [Validate(o.generate.value.sql.value)] + CallsPast(i, o, env, streaming)
  }

  function CallsPast(i: Input, o: Outcomes, env: Env, streaming: bool): seq<Action>
  {
    if !PastVerdict(i, o) then []
    else [Execute(Runs(o))] + CallsBehind(o, Fetched(env, Runs(o)), streaming)
  }

  lemma {:induction false} NoCalls(content: string, sql: Option<string>, done: Event)
    ensures Work(Closing(content, sql, done)) == [] && Work([Assistant(content, sql)]) == []
  {
    FirstAction(Assistant(content, sql), [Emit(done)]);
    OneAction(Emit(done));
    OneAction(Assistant(content, sql));
  }

  lemma {:induction false} ChartCalls(o: Outcomes, sql: string, v: Verdict, rows: Rows, w: seq<string>)
    ensures Work(StreamChart(o, sql, rows, w)) == if o.chart.Returned? then [ToNarrative(rows)] else []
    ensures Work(SyncChart(o, sql, v, rows, w).log) == if o.chart.Returned? then [ToNarrative(rows)] else []
  {
    match o.chart
    case Raised(m) => NoCalls("Pipeline error: " + m, None, Done("error", Some(m), None, w));
    case Returned(c) =>
      var w' := w + c.warnings;
      var rest, trace := StreamNarrate(o, sql, c, w'), SyncNarrate(o, sql, v, c, w');
      NarrateCalls(o, sql, v, c, w');
      FirstAction(Emit(Chart(c.spec, c.image, c.svg, c.warnings)), [ToNarrative(rows)] + rest);
      FirstAction(ToNarrative(rows), rest);
      FirstAction(ToNarrative(rows), trace.log);
  }

  lemma {:induction false} NarrateCalls(o: Outcomes, sql: string, v: Verdict, c: ChartOutput, w: seq<string>)
    ensures Work(StreamNarrate(o, sql, c, w)) == [] && Work(SyncNarrate(o, sql, v, c, w).log) == []
  {
    match o.narrate
    case Raised(m) => NoCalls("Pipeline error: " + m, None, Done("error", Some(m), None, w));
    case Returned(n) =>
      var done := Done("complete", None, None, w + n.warnings);
      NoCalls(Content(n, c, o.base64), Some(sql), done);
      FirstAction(Emit(Narrative(n.text, n.warnings)), Closing(Content(n, c, o.base64), Some(sql), done));
  }

  lemma {:induction false} StreamEmptyCalls(o: Outcomes, sql: string, x: Executed, w: seq<string>)
    requires x.rows.None? || x.rows.value == []
    ensures Work(StreamPresent(o, sql, x, w)) == []
  {
    var done := Done("no_data", None, None, w + x.warnings);
    NoCalls(NO_DATA, Some(sql), done);
    FirstAction(Emit(Data(0, Preview([]), x.warnings)), Closing(NO_DATA, Some(sql), done));
  }

  lemma {:induction false} StreamRowsCalls(o: Outcomes, sql: string, x: Executed, w: seq<string>)
    requires x.rows.Some? && x.rows.value != []
    ensures Work(StreamPresent(o, sql, x, w)) == CallsBehind(o, Returned(x.rows.value), true)
  {
    var rows, w' := x.rows.value, w + x.warnings;
    var rest := StreamChart(o, sql, rows, w');
    ChartCalls(o, sql, Verdict(true, [], None, false, None), rows, w');
    FirstAction(Emit(Data(|rows|, Preview(rows), x.warnings)), [ToChart(rows)] + rest);
    FirstAction(ToChart(rows), rest);
  }

  lemma {:induction false} StreamPresentCalls(o: Outcomes, env: Env, sql: string, run: string, w: seq<string>)
    ensures Work(StreamPresent(o, sql, ExecuteResult(env, run), w)) == CallsBehind(o, Fetched(env, run), true)
  {
    ExecutedIsFetched(env, run);
    var x := ExecuteResult(env, run);
    if x.rows.None? || x.rows.value == [] {
      StreamEmptyCalls(o, sql, x, w);
    } else {
      StreamRowsCalls(o, sql, x, w);
    }
  }

  lemma {:induction false} SyncPresentCalls(o: Outcomes, env: Env, sql: string, v: Verdict, run: string, w: seq<string>)
    ensures Work(SyncPresent(o, sql, v, ExecuteResult(env, run), w).log) == CallsBehind(o, Fetched(env, run), false)
  {
    ExecutedIsFetched(env, run);
    var x := ExecuteResult(env, run);
    if x.rows.None? {
      NoCalls(NO_DATA, Some(sql), Done("no_data", None, None, w));
    } else {
      ChartCalls(o, sql, v, x.rows.value, w + x.warnings);
      FirstAction(ToChart(x.rows.value), SyncChart(o, sql, v, x.rows.value, w + x.warnings).log);
    }
  }

  lemma {:induction false} VerdictCalls(i: Input, o: Outcomes, env: Env, w: seq<string>)
    requires PastWiki(o) && HasSql(o) && o.validate.Returned?
    ensures Work(StreamVerdict(i, o, env, o.generate.value.sql.value, o.validate.value, w))
         == CallsPast(i, o, env, true)
  {
    var sql, v := o.generate.value.sql.value, o.validate.value;
    if PastVerdict(i, o) {
      StreamPresentCalls(o, env, sql, Runs(o), w);
      FirstAction(Execute(Runs(o)), StreamPresent(o, sql, ExecuteResult(env, Runs(o)), w));
    } else if v.valid {
      NoCalls(UNCONFIRMED, Some(sql), Done("confirmation_required", None, Some(v.rowEstimate), w));
    } else {
      NoCalls(UNSAFE, Some(sql), Done("validation_failed", None, None, w));
    }
  }

  lemma {:induction false} ValidateCalls(i: Input, o: Outcomes, env: Env, w: seq<string>)
    requires PastWiki(o) && HasSql(o)
    ensures Work(StreamValidate(i, o, env, o.generate.value.sql.value, w)) == CallsPast(i, o, env, true)
  {
    match o.validate
    case Raised(m) => NoCalls("Pipeline error: " + m, None, Done("error", Some(m), None, w));
    case Returned(v) =>
      VerdictCalls(i, o, env, w + v.warnings);
      FirstAction(Emit(Validation(v)), StreamVerdict(i, o, env, o.generate.value.sql.value, v, w + v.warnings));
  }

  lemma {:induction false} SyncValidateCalls(i: Input, o: Outcomes, env: Env, w: seq<string>)
    requires PastWiki(o) && HasSql(o)
    ensures Work(SyncValidate(i, o, env, o.generate.value.sql.value, w).log) == CallsPast(i, o, env, false)
  {
    var sql := o.generate.value.sql.value;
    match o.validate
    case Raised(m) => NoCalls("Pipeline error: " + m, None, Done("error", Some(m), None, w));
    case Returned(v) =>
      if PastVerdict(i, o) {
        SyncPresentCalls(o, env, sql, v, Runs(o), w + v.warnings);
        FirstAction(Execute(Runs(o)), SyncPresent(o, sql, v, ExecuteResult(env, Runs(o)), w + v.warnings).log);
      } else {
        NoCalls(if v.valid then UNCONFIRMED else UNSAFE, Some(sql), Done("validation_failed", None, None, w));
      }
  }

  lemma {:induction false} GenerateCalls(i: Input, o: Outcomes, env: Env)
    requires PastWiki(o)
    ensures Work(StreamGenerate(i, o, env)) == Calls(i, o, env, true)
  {
    match o.generate
    case Raised(m) => NoCalls("Pipeline error: " + m, None, Done("error", Some(m), None, []));
    case Returned(g) =>
      var event := Emit(Sql(g.sql, g.warnings));
      if HasSql(o) {
        var rest := StreamValidate(i, o, env, g.sql.value, g.warnings);
        ValidateCalls(i, o, env, g.warnings);
        FirstAction(Validate(g.sql.value), rest);
        FirstAction(event, [Validate(g.sql.value)] + rest);
      } else {
        NoCalls(NO_SQL, None, Done("no_sql", None, None, g.warnings));
        FirstAction(event, Closing(NO_SQL, None, Done("no_sql", None, None, g.warnings)));
      }
  }

  lemma {:induction false} SyncGenerateCalls(i: Input, o: Outcomes, env: Env)
    requires PastWiki(o)
    ensures Work(SyncGenerate(i, o, env).log) == Calls(i, o, env, false)
  {
    match o.generate
    case Raised(m) => NoCalls("Pipeline error: " + m, None, Done("error", Some(m), None, []));
    case Returned(g) =>
      if HasSql(o) {
        SyncValidateCalls(i, o, env, g.warnings);
        FirstAction(Validate(g.sql.value), SyncValidate(i, o, env, g.sql.value, g.warnings).log);
      } else {
        NoCalls(NO_SQL, None, Done("no_sql", None, None, g.warnings));
      }
  }

  lemma {:induction false} RouteCalls(i: Input, o: Outcomes, env: Env)
    ensures Work(StreamRoute(i, o, env)) == Calls(i, o, env, true)
    ensures Work(SyncRoute(i, o, env).log) == Calls(i, o, env, false)
  {
    if o.route.Raised? {
      NoCalls("Pipeline error: " + o.route.message, None, Done("error", Some(o.route.message), None, []));
    } else {
      var r := o.route.value;
      FirstAction(Emit(Intent(r.intent, r.plan)), StreamKnowledge(i, o, env, r));
      if PastWiki(o) {
        GenerateCalls(i, o, env);
        SyncGenerateCalls(i, o, env);
      } else if o.wiki.Raised? {
        NoCalls("Pipeline error: " + o.wiki.message, None, Done("error", Some(o.wiki.message), None, []));
      } else {
        var answer, done := o.wiki.value, Done("complete", None, None, []);
        NoCalls(answer.value, None, done);
        FirstAction(Emit(Narrative(answer, [])), Closing(answer.value, None, done));
      }
    }
  }

  /** Both runs validate the generated SQL, execute it in its validated form if the verdict and, where demanded,
      the confirmation allow it, and show the rows to the chart agent and then the narrative agent; nothing else,
      and as far as the stages before do not break. */
  lemma {:induction false} RunsCall(i: Input, o: Outcomes, env: Env)
    ensures Work(Stream(i, o, env)) == Calls(i, o, env, true) && Work(Sync(i, o, env).log) == Calls(i, o, env, false)
  {
    var user, start := Persist(Turn("user", i.query, None)), Emit(Start(i.query, i.session, i.conversation));
    RouteCalls(i, o, env);
    FirstAction(user, [start] + StreamRoute(i, o, env));
    FirstAction(start, StreamRoute(i, o, env));
    FirstAction(user, SyncRoute(i, o, env).log);
  }
}

/** The chat service: the two runs as methods over a log and the shared query cache, what every history
    of runs keeps, and what the browser makes of the events. */
module ChatService {
  import opened Wrappers
  import opened ChatPipeline
  import opened ChatEndings

  // ---------- the service ----------

  class QueryCache {
    var rows: map<string, Rows>

    constructor ()
      ensures rows == map[]
    {
      rows := map[];
    }
  }

  /** The query cache after a run: only an execution changes it. */
  function CacheOf(env: Env, log: seq<Action>): map<string, Rows>
  {
    if log == [] then env.cached
    else if log[0].Execute? then CacheAfter(env, log[0].sql)
    else CacheOf(env, log[1..])
  }

  lemma {:induction false} CacheOfFirst(env: Env, a: Action, rest: seq<Action>)
    ensures CacheOf(env, [a] + rest) == if a.Execute? then CacheAfter(env, a.sql) else CacheOf(env, rest)
  {
    assert ([a] + rest)[1..] == rest;
  }

  lemma {:induction false} Assoc(front: seq<Action>, a: Action, rest: seq<Action>)
    ensures front + ([a] + rest) == front + [a] + rest
  {
  }

  class Service {
    const cache: QueryCache
    const normal: string -> string
    const mask: Rows -> Rows
    var log: seq<Action>

    constructor (cache: QueryCache, normal: string -> string, mask: Rows -> Rows)
      ensures this.cache == cache && this.normal == normal && this.mask == mask && log == []
    {
      this.cache := cache;
      this.normal := normal;
      this.mask := mask;
      log := [];
    }

    function Environment(source: string -> Try<Rows>): Env
      reads this, cache
    {
      Env(cache.rows, source, normal, mask)
    }

    /** Cached rows, or the source's rows: masked first, then cached. */
    method StepExecute(sql: string, source: string -> Try<Rows>) returns (x: Executed)
      modifies cache
      ensures x == ExecuteResult(old(Environment(source)), sql)
      ensures cache.rows == CacheAfter(old(Environment(source)), sql)
    {
      var key := normal(sql);
      if key in cache.rows {
        return Executed(Some(cache.rows[key]), []);
      }
      var fetched := source(sql);
      if fetched.Raised? {
        return Executed(None, ["Query execution failed: " + fetched.message]);
      }
      var results := mask(fetched.value);
      cache.rows := cache.rows[key := results];
      x := Executed(Some(results), []);
    }

    method Note(a: Action)
      modifies this`log
      ensures log == old(log) + [a]
    {
      log := log + [a];
    }

    // ----- the run with one response, stage by stage -----

    method ProcessQuery(i: Input, o: Outcomes, source: string -> Try<Rows>) returns (response: Response)
      modifies this`log, cache
      ensures var env := old(Environment(source));
              log == old(log) + Sync(i, o, env).log && response == Sync(i, o, env).response
              && cache.rows == CacheOf(env, Sync(i, o, env).log)
      ensures var done, e := log[|old(log)|..], EndOf(i, o, old(Environment(source)), false);
              |Turns(done)| == 2 && Turns(done)[0] == Turn("user", i.query, None) && IsTurn(Turns(done)[1], e)
              && response == EndResponse(e) && MayDo(Work(done), i, o, old(Environment(source)))
    {
      ghost var env, was := Environment(source), log;
      SyncEnds(i, o, env);
      RunsAreGated(i, o, env);
      var turn := Persist(Turn("user", i.query, None));
      Note(turn);
      response := RouteStage(i, o, source);
      Assoc(was, turn, SyncRoute(i, o, env).log);
      CacheOfFirst(env, turn, SyncRoute(i, o, env).log);
      assert log[|was|..] == Sync(i, o, env).log;
    }

    method Finish(content: string, sql: Option<string>, r: Response, ghost env: Env) returns (response: Response)
      modifies this`log
      ensures log == old(log) + Answer(content, sql, r).log && response == r
      ensures CacheOf(env, Answer(content, sql, r).log) == env.cached
    {
      Note(Assistant(content, sql));
      response := r;
      CacheOfFirst(env, Assistant(content, sql), []);
      assert [Assistant(content, sql)] + [] == [Assistant(content, sql)];
    }

    method Fail(warnings: seq<string>, message: string, ghost env: Env) returns (response: Response)
      modifies this`log
      ensures log == old(log) + Failed(warnings, message).log && response == Failed(warnings, message).response
      ensures CacheOf(env, Failed(warnings, message).log) == env.cached
    {
      response := Finish("Pipeline error: " + message, None,
                         PLAIN.(warnings := warnings + ["Pipeline error: " + message]), env);
    }

    method RouteStage(i: Input, o: Outcomes, source: string -> Try<Rows>) returns (response: Response)
      modifies this`log, cache
      ensures var env := old(Environment(source));
              log == old(log) + SyncRoute(i, o, env).log && response == SyncRoute(i, o, env).response
              && cache.rows == CacheOf(env, SyncRoute(i, o, env).log)
    {
      ghost var env := Environment(source);
      if o.route.Raised? {
        response := Fail([], o.route.message, env);
        return;
      }
      if o.route.value.intent == KNOWLEDGE {
        if o.wiki.Raised? {
          response := Fail([], o.wiki.message, env);
          return;
        }
        if o.wiki.value.Some? {
          response := Finish(o.wiki.value.value, None, PLAIN.(narrative := o.wiki.value), env);
          return;
        }
      }
      response := GenerateStage(i, o, source);
    }

    method GenerateStage(i: Input, o: Outcomes, source: string -> Try<Rows>) returns (response: Response)
      modifies this`log, cache
      ensures var env := old(Environment(source));
              log == old(log) + SyncGenerate(i, o, env).log && response == SyncGenerate(i, o, env).response
              && cache.rows == CacheOf(env, SyncGenerate(i, o, env).log)
    {
      ghost var env, was := Environment(source), log;
      if o.generate.Raised? {
        response := Fail([], o.generate.message, env);
        return;
      }
      var g := o.generate.value;
      if Or(g.sql, "") == "" {
        response := Finish(NO_SQL, None, PLAIN.(warnings := g.warnings + [NO_SQL]), env);
        return;
      }
      var sql := g.sql.value;
      Note(Validate(sql));
      response := ValidateStage(i, o, source, sql, g.warnings);
      Assoc(was, Validate(sql), SyncValidate(i, o, env, sql, g.warnings).log);
      CacheOfFirst(env, Validate(sql), SyncValidate(i, o, env, sql, g.warnings).log);
    }

    method ValidateStage(i: Input, o: Outcomes, source: string -> Try<Rows>, sql: string, warnings: seq<string>)
      returns (response: Response)
      modifies this`log, cache
      ensures var env := old(Environment(source));
              var t := SyncValidate(i, o, env, sql, warnings);
              log == old(log) + t.log && response == t.response && cache.rows == CacheOf(env, t.log)
    {
      ghost var env, was := Environment(source), log;
      if o.validate.Raised? {
        response := Fail(warnings, o.validate.message, env);
        return;
      }
      var v := o.validate.value;
      var w := warnings + v.warnings;
      if !v.valid {
        response := Finish(UNSAFE, Some(sql), PLAIN.(sql := Some(sql), warnings := w + [UNSAFE]), env);
        return;
      }
      if v.requiresConfirmation && !i.confirmed {
        response := Finish(UNCONFIRMED, Some(sql), PLAIN.(sql := Some(sql), warnings := w, requiresConfirmation := true,
                                                          rowEstimate := v.rowEstimate), env);
        return;
      }
      var run := Or(v.validatedSql, sql);
      Note(Execute(run));
      var x := StepExecute(run, source);
      response := PresentStage(o, sql, v, x, w, env);
      Assoc(was, Execute(run), SyncPresent(o, sql, v, x, w).log);
      CacheOfFirst(env, Execute(run), SyncPresent(o, sql, v, x, w).log);
    }

    method PresentStage(o: Outcomes, sql: string, v: Verdict, x: Executed, warnings: seq<string>, ghost env: Env)
      returns (response: Response)
      modifies this`log
      ensures var t := SyncPresent(o, sql, v, x, warnings);
              log == old(log) + t.log && response == t.response
    {
      ghost var was := log;
      var w := warnings + x.warnings;
      if x.rows.None? {
        response := Finish(NO_DATA, Some(sql), PLAIN.(sql := Some(sql), warnings := w + [NO_DATA]), env);
        return;
      }
      Note(ToChart(x.rows.value));
      response := ChartStage(o, sql, v, x.rows.value, w, env);
      Assoc(was, ToChart(x.rows.value), SyncChart(o, sql, v, x.rows.value, w).log);
    }

    method ChartStage(o: Outcomes, sql: string, v: Verdict, rows: Rows, warnings: seq<string>, ghost env: Env)
      returns (response: Response)
      modifies this`log
      ensures var t := SyncChart(o, sql, v, rows, warnings);
              log == old(log) + t.log && response == t.response
    {
      ghost var was := log;
      if o.chart.Raised? {
        response := Fail(warnings, o.chart.message, env);
        return;
      }
      var c := o.chart.value;
      var w := warnings + c.warnings;
      Note(ToNarrative(rows));
      Assoc(was, ToNarrative(rows), SyncNarrate(o, sql, v, c, w).log);
      if o.narrate.Raised? {
        response := Fail(w, o.narrate.message, env);
        return;
      }
      var n := o.narrate.value;
      response := Finish(Content(n, c, o.base64), Some(sql),
                         Response(Some(sql), c.spec, n.text, c.image, c.svg, w + n.warnings, false, v.rowEstimate),
                         env);
    }

    // ----- the streaming run, stage by stage -----

    method ProcessQueryStream(i: Input, o: Outcomes, source: string -> Try<Rows>)
      modifies this`log, cache
      ensures var env := old(Environment(source));
              log == old(log) + Stream(i, o, env) && cache.rows == CacheOf(env, Stream(i, o, env))
      ensures var done, env := log[|old(log)|..], old(Environment(source));
              |Turns(done)| == 2 && Turns(done)[0] == Turn("user", i.query, None)
              && IsTurn(Turns(done)[1], EndOf(i, o, env, true))
              && Word(Events(done)) && AllHonest(done, i, o, env)
              && Events(done)[|Events(done)| - 1] == EndEvent(EndOf(i, o, env, true))
              && MayDo(Work(done), i, o, env)
    {
      ghost var env, was := Environment(source), log;
      StreamEnds(i, o, env);
      RunsAreGated(i, o, env);
      StreamEmitsAWord(i, o, env);
      var turn, start := Persist(Turn("user", i.query, None)), Emit(Start(i.query, i.session, i.conversation));
      Note(turn);
      Note(start);
      RouteStream(i, o, source);
      Assoc(was, turn, [start] + StreamRoute(i, o, env));
      Assoc(was + [turn], start, StreamRoute(i, o, env));
      CacheOfFirst(env, turn, [start] + StreamRoute(i, o, env));
      CacheOfFirst(env, start, StreamRoute(i, o, env));
      assert log[|was|..] == Stream(i, o, env);
    }

    method Close(content: string, sql: Option<string>, done: Event, ghost env: Env)
      modifies this`log
      ensures log == old(log) + Closing(content, sql, done) && CacheOf(env, Closing(content, sql, done)) == env.cached
    {
      ghost var was := log;
      Note(Assistant(content, sql));
      Note(Emit(done));
      Assoc(was, Assistant(content, sql), [Emit(done)]);
      CacheOfFirst(env, Assistant(content, sql), [Emit(done)]);
      CacheOfFirst(env, Emit(done), []);
      assert [Emit(done)] + [] == [Emit(done)];
    }

    method CloseFailed(warnings: seq<string>, message: string, ghost env: Env)
      modifies this`log
      ensures log == old(log) + StreamFailed(warnings, message)
              && CacheOf(env, StreamFailed(warnings, message)) == env.cached
    {
      Close("Pipeline error: " + message, None, Done("error", Some(message), None, warnings), env);
    }

    method RouteStream(i: Input, o: Outcomes, source: string -> Try<Rows>)
      modifies this`log, cache
      ensures var env := old(Environment(source));
              log == old(log) + StreamRoute(i, o, env) && cache.rows == CacheOf(env, StreamRoute(i, o, env))
    {
      ghost var env, was := Environment(source), log;
      if o.route.Raised? {
        CloseFailed([], o.route.message, env);
        return;
      }
      var r := o.route.value;
      var intent := Emit(Intent(r.intent, r.plan));
      Note(intent);
      Assoc(was, intent, StreamKnowledge(i, o, env, r));
      CacheOfFirst(env, intent, StreamKnowledge(i, o, env, r));
      if r.intent == KNOWLEDGE {
        if o.wiki.Raised? {
          CloseFailed([], o.wiki.message, env);
          return;
        }
        if o.wiki.value.Some? {
          AnswerStream(o.wiki.value.value, env);
          return;
        }
      }
      GenerateStream(i, o, source);
    }

    method AnswerStream(answer: string, ghost env: Env)
      modifies this`log
      ensures var t := [Emit(Narrative(Some(answer), []))] + Closing(answer, None, Done("complete", None, None, []));
              log == old(log) + t && CacheOf(env, t) == env.cached
    {
      ghost var was := log;
      var narrative, done := Emit(Narrative(Some(answer), [])), Done("complete", None, None, []);
      Note(narrative);
      Close(answer, None, done, env);
      Assoc(was, narrative, Closing(answer, None, done));
      CacheOfFirst(env, narrative, Closing(answer, None, done));
    }

    method GenerateStream(i: Input, o: Outcomes, source: string -> Try<Rows>)
      modifies this`log, cache
      ensures var env := old(Environment(source));
              log == old(log) + StreamGenerate(i, o, env) && cache.rows == CacheOf(env, StreamGenerate(i, o, env))
    {
      ghost var env, was := Environment(source), log;
      if o.generate.Raised? {
        CloseFailed([], o.generate.message, env);
        return;
      }
      var g := o.generate.value;
      var event := Emit(Sql(g.sql, g.warnings));
      Note(event);
      if Or(g.sql, "") == "" {
        var done := Done("no_sql", None, None, g.warnings);
        Close(NO_SQL, None, done, env);
        Assoc(was, event, Closing(NO_SQL, None, done));
        CacheOfFirst(env, event, Closing(NO_SQL, None, done));
        return;
      }
      var sql := g.sql.value;
      Note(Validate(sql));
      ValidateStream(i, o, source, sql, g.warnings);
      ghost var rest := StreamValidate(i, o, env, sql, g.warnings);
      Assoc(was, event, [Validate(sql)] + rest);
      Assoc(was + [event], Validate(sql), rest);
      CacheOfFirst(env, event, [Validate(sql)] + rest);
      CacheOfFirst(env, Validate(sql), rest);
    }

    method ValidateStream(i: Input, o: Outcomes, source: string -> Try<Rows>, sql: string, warnings: seq<string>)
      modifies this`log, cache
      ensures var env := old(Environment(source));
              var t := StreamValidate(i, o, env, sql, warnings);
              log == old(log) + t && cache.rows == CacheOf(env, t)
    {
      ghost var env, was := Environment(source), log;
      if o.validate.Raised? {
        CloseFailed(warnings, o.validate.message, env);
        return;
      }
      var v := o.validate.value;
      Note(Emit(Validation(v)));
      VerdictStream(i, o, source, sql, v, warnings + v.warnings);
      ghost var rest := StreamVerdict(i, o, env, sql, v, warnings + v.warnings);
      Assoc(was, Emit(Validation(v)), rest);
      CacheOfFirst(env, Emit(Validation(v)), rest);
    }

    method VerdictStream(i: Input, o: Outcomes, source: string -> Try<Rows>, sql: string, v: Verdict, w: seq<string>)
      modifies this`log, cache
      ensures var env := old(Environment(source));
              var t := StreamVerdict(i, o, env, sql, v, w);
              log == old(log) + t && cache.rows == CacheOf(env, t)
    {
      ghost var env, was := Environment(source), log;
      if !v.valid {
        Close(UNSAFE, Some(sql), Done("validation_failed", None, None, w), env);
        return;
      }
      if v.requiresConfirmation && !i.confirmed {
        Close(UNCONFIRMED, Some(sql), Done("confirmation_required", None, Some(v.rowEstimate), w), env);
        return;
      }
      var run := Or(v.validatedSql, sql);
      Note(Execute(run));
      var x := StepExecute(run, source);
      PresentStream(o, sql, x, w, env);
      Assoc(was, Execute(run), StreamPresent(o, sql, x, w));
      CacheOfFirst(env, Execute(run), StreamPresent(o, sql, x, w));
    }

    method PresentStream(o: Outcomes, sql: string, x: Executed, warnings: seq<string>, ghost env: Env)
      modifies this`log
      ensures log == old(log) + StreamPresent(o, sql, x, warnings)
    {
      ghost var was := log;
      var w := warnings + x.warnings;
      var rows := if x.rows.Some? then x.rows.value else [];
      var data := Emit(Data(|rows|, Preview(rows), x.warnings));
      Note(data);
      if rows == [] {
        var done := Done("no_data", None, None, w);
        Close(NO_DATA, Some(sql), done, env);
        Assoc(was, data, Closing(NO_DATA, Some(sql), done));
        return;
      }
      Note(ToChart(rows));
      ChartStream(o, sql, rows, w, env);
      Assoc(was, data, [ToChart(rows)] + StreamChart(o, sql, rows, w));
      Assoc(was + [data], ToChart(rows), StreamChart(o, sql, rows, w));
    }

    method ChartStream(o: Outcomes, sql: string, rows: Rows, warnings: seq<string>, ghost env: Env)
      modifies this`log
      ensures log == old(log) + StreamChart(o, sql, rows, warnings)
    {
      ghost var was := log;
      if o.chart.Raised? {
        CloseFailed(warnings, o.chart.message, env);
        return;
      }
      var c := o.chart.value;
      var w := warnings + c.warnings;
      var chart := Emit(Chart(c.spec, c.image, c.svg, c.warnings));
      Note(chart);
      Note(ToNarrative(rows));
      NarrateStream(o, sql, c, w, env);
      ghost var rest := StreamNarrate(o, sql, c, w);
      Assoc(was, chart, [ToNarrative(rows)] + rest);
      Assoc(was + [chart], ToNarrative(rows), rest);
    }

    method NarrateStream(o: Outcomes, sql: string, c: ChartOutput, warnings: seq<string>, ghost env: Env)
      modifies this`log
      ensures log == old(log) + StreamNarrate(o, sql, c, warnings)
    {
      ghost var was := log;
      if o.narrate.Raised? {
        CloseFailed(warnings, o.narrate.message, env);
        return;
      }
      var n := o.narrate.value;
      var narrative, done := Emit(Narrative(n.text, n.warnings)), Done("complete", None, None, warnings + n.warnings);
      Note(narrative);
      Close(Content(n, c, o.base64), Some(sql), done, env);
      Assoc(was, narrative, Closing(Content(n, c, o.base64), Some(sql), done));
    }
  }
}

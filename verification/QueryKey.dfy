/** The key under which a query's rows are cached: its words in lower case. Which queries share a key, and
    for which data sources the cache answers every query as the source would. */
module QueryKey {
  import opened Wrappers
  import opened Text
  import opened ChatPipeline

  /** The words of a text: what lies between its blanks. `word` is the word begun so far. */
  function Words(s: string, word: string): seq<string>
  {
    if s == "" then (if word == "" then [] else [word])
    else if PySpace(s[0]) then (if word == "" then [] else [word]) + Words(s[1..], "")
    else Words(s[1..], word + [s[0]])
  }

  function NormalSql(sql: string): string
  {
    Join(Words(Lower(sql), ""), " ")
  }

  /** Two queries with the same words, up to case. */
  predicate SameWords(a: string, b: string)
  {
    Words(Lower(a), "") == Words(Lower(b), "")
  }

  // ---------- which queries share a key ----------

  predicate IsWord(w: string)
  {
    w != "" && ' ' !in w
  }

  ghost predicate AreWords(ws: seq<string>)
  {
    forall i :: 0 <= i < |ws| ==> IsWord(ws[i])
  }

  lemma {:induction false} WordsAreWords(s: string, word: string)
    requires ' ' !in word
    ensures AreWords(Words(s, word))
    decreases |s|
  {
    if s != "" {
      WordsAreWords(s[1..], if PySpace(s[0]) then "" else word + [s[0]]);
    }
  }

  lemma {:induction false} JoinIsEmpty(ws: seq<string>)
    requires AreWords(ws)
    ensures Join(ws, " ") == "" <==> ws == []
  {
    if ws != [] {
      assert IsWord(ws[0]);
    }
  }

  lemma {:induction false} SplitOfJoin(ws: seq<string>)
    requires AreWords(ws) && ws != []
    ensures Split(Join(ws, " "), " ") == ws
  {
    forall w | w in ws ensures Splittable(w, " ") {
      assert IsWord(w);
      CharSplittable(w, ' ');
    }
    SplitJoin(ws, " ");
  }

  /** Queries share a key exactly if they have the same words up to case: joining words loses nothing. */
  lemma {:induction false} KeyIsWords(a: string, b: string)
    ensures NormalSql(a) == NormalSql(b) <==> SameWords(a, b)
  {
    var x, y := Words(Lower(a), ""), Words(Lower(b), "");
    WordsAreWords(Lower(a), "");
    WordsAreWords(Lower(b), "");
    JoinIsEmpty(x);
    JoinIsEmpty(y);
    if x != [] && y != [] {
      SplitOfJoin(x);
      SplitOfJoin(y);
    }
  }

  // ---------- when the cache answers as the source does ----------

  /** A query that is executed, or a cached row set that is evicted. */
  datatype Use = Query(sql: string) | Evict(key: string)

  function EnvWith(cached: map<string, Rows>, source: string -> Try<Rows>, mask: Rows -> Rows): Env
  {
    Env(cached, source, NormalSql, mask)
  }

  function CachedBy(uses: seq<Use>, source: string -> Try<Rows>, mask: Rows -> Rows): map<string, Rows>
  {
    if uses == [] then map[] else
    var cached := CachedBy(uses[..|uses| - 1], source, mask);
    match uses[|uses| - 1]
    case Query(sql) => CacheAfter(EnvWith(cached, source, mask), sql)
    case Evict(key) => cached - {key}
  }

  /** What executing the query gives without a cache. */
  function Alone(sql: string, source: string -> Try<Rows>, mask: Rows -> Rows): Executed
  {
    ExecuteResult(EnvWith(map[], source, mask), sql)
  }

  /** After any use of the cache, every query gets what it would get without it. */
  ghost predicate AnswersExactly(source: string -> Try<Rows>, mask: Rows -> Rows)
  {
    forall uses, sql ::
      ExecuteResult(EnvWith(CachedBy(uses, source, mask), source, mask), sql) == Alone(sql, source, mask)
  }

  /** Queries with the same words up to case return the same masked rows. */
  ghost predicate IgnoresCaseAndBlanks(source: string -> Try<Rows>, mask: Rows -> Rows)
  {
    forall a, b :: SameWords(a, b) && source(a).Returned? ==> Alone(b, source, mask) == Alone(a, source, mask)
  }

  /** Some query that the source answers has this key and these rows. */
  ghost predicate Answered(key: string, rows: Rows, source: string -> Try<Rows>, mask: Rows -> Rows)
  {
    exists q :: NormalSql(q) == key && source(q).Returned? && mask(source(q).value) == rows
  }

  ghost predicate AllAnswered(cached: map<string, Rows>, source: string -> Try<Rows>, mask: Rows -> Rows)
  {
    forall key :: key in cached ==> Answered(key, cached[key], source, mask)
  }

  lemma {:induction false} CachedAreAnswers(uses: seq<Use>, source: string -> Try<Rows>, mask: Rows -> Rows)
    ensures AllAnswered(CachedBy(uses, source, mask), source, mask)
  {
    if uses != [] {
      var before, last := CachedBy(uses[..|uses| - 1], source, mask), uses[|uses| - 1];
      CachedAreAnswers(uses[..|uses| - 1], source, mask);
      if last.Query? {
        OneMoreAnswer(before, last.sql, source, mask);
      }
    }
  }

  lemma {:induction false} OneMoreAnswer(cached: map<string, Rows>, sql: string, source: string -> Try<Rows>,
                                         mask: Rows -> Rows)
    requires AllAnswered(cached, source, mask)
    ensures AllAnswered(CacheAfter(EnvWith(cached, source, mask), sql), source, mask)
  {
    var after := CacheAfter(EnvWith(cached, source, mask), sql);
    forall key | key in after ensures Answered(key, after[key], source, mask) {
      if !(key in cached && after[key] == cached[key]) {
        assert NormalSql(sql) == key && source(sql).Returned? && mask(source(sql).value) == after[key];
      }
    }
  }

  /** Every cached answer is the source's exactly if the source does not tell queries apart that differ in
      nothing but case and blanks, inside quotes too. */
  lemma {:induction false} CacheIsExactly(source: string -> Try<Rows>, mask: Rows -> Rows)
    ensures AnswersExactly(source, mask) <==> IgnoresCaseAndBlanks(source, mask)
  {
    if IgnoresCaseAndBlanks(source, mask) {
      forall uses, sql
        ensures ExecuteResult(EnvWith(CachedBy(uses, source, mask), source, mask), sql) == Alone(sql, source, mask)
      {
        SharedAnswerIsOwn(uses, sql, source, mask);
      }
    } else {
      var a, b :| SameWords(a, b) && source(a).Returned? && Alone(b, source, mask) != Alone(a, source, mask);
      SecondGetsFirst(a, b, source, mask);
    }
  }

  lemma {:induction false} SharedAnswerIsOwn(uses: seq<Use>, sql: string, source: string -> Try<Rows>,
                                             mask: Rows -> Rows)
    requires IgnoresCaseAndBlanks(source, mask)
    ensures ExecuteResult(EnvWith(CachedBy(uses, source, mask), source, mask), sql) == Alone(sql, source, mask)
  {
    var cached := CachedBy(uses, source, mask);
    CachedAreAnswers(uses, source, mask);
    if NormalSql(sql) in cached {
      assert Answered(NormalSql(sql), cached[NormalSql(sql)], source, mask);
      var q :| NormalSql(q) == NormalSql(sql) && source(q).Returned? && mask(source(q).value) == cached[NormalSql(sql)];
      KeyIsWords(q, sql);
    }
  }

  /** The second of two queries with the same words gets the rows of the first. */
  lemma {:induction false} SecondGetsFirst(a: string, b: string, source: string -> Try<Rows>, mask: Rows -> Rows)
    requires SameWords(a, b) && source(a).Returned?
    ensures ExecuteResult(EnvWith(CachedBy([Query(a)], source, mask), source, mask), b) == Alone(a, source, mask)
  {
    KeyIsWords(a, b);
    var uses := [Query(a)];
    assert uses[..0] == [];
    assert CachedBy(uses[..0], source, mask) == map[];
  }

  // ---------- two pairs of queries that are confused ----------

  lemma {:induction false} LowerConcat(a: string, b: string)
    ensures Lower(a + b) == Lower(a) + Lower(b)
  {
    if a == "" {
      assert a + b == b;
    } else {
      assert (a + b)[1..] == a[1..] + b;
      LowerConcat(a[1..], b);
    }
  }

  /** A second blank changes no words. */
  lemma {:induction false} SecondBlank(a: string, b: string, word: string)
    ensures Words(a + "  " + b, word) == Words(a + " " + b, word)
    decreases |a|
  {
    var two, one := a + "  " + b, a + " " + b;
    if a == "" {
      assert two[1..] == " " + b && one[1..] == b && two[1..][1..] == b;
      assert Words(two[1..], "") == [] + Words(b, "");
    } else {
      assert two[1..] == a[1..] + "  " + b && one[1..] == a[1..] + " " + b;
      SecondBlank(a[1..], b, if PySpace(a[0]) then "" else word + [a[0]]);
    }
  }

  /** Case is no part of the key, not even inside quotes. */
  lemma {:induction false} CaseIsNotPartOfTheKey(sql: string)
    ensures SameWords(Lower(sql), sql)
  {
    LowerTwice(sql);
  }

  /** Two literals that differ in case, behind any beginning of a query. */
  lemma {:induction false} LiteralCaseIsConfused(front: string)
    ensures SameWords(front + "'A'", front + "'a'")
  {
    LowerConcat(front, "'A'");
    LowerConcat(front, "'a'");
    assert Lower("'A'") == Lower("'a'") by {
      assert "'A'"[1..] == "A'" && "'a'"[1..] == "a'" && "A'"[1..] == "a'"[1..];
    }
  }

  /** Two queries that differ in the number of blanks at one place, which may be inside a literal. */
  lemma {:induction false} BlanksAreConfused(front: string, back: string)
    ensures SameWords(front + "  " + back, front + " " + back)
  {
    LowerAround(front, "  ", back);
    LowerAround(front, " ", back);
    SecondBlank(Lower(front), Lower(back), "");
  }

  lemma {:induction false} LowerAround(front: string, blanks: string, back: string)
    requires blanks == " " || blanks == "  "
    ensures Lower(front + blanks + back) == Lower(front) + blanks + Lower(back)
  {
    LowerConcat(front + blanks, back);
    LowerConcat(front, blanks);
    assert "  "[1..] == " " && " "[1..] == "";
    assert Lower(" ") == " ";
  }

  /** A source that returns a row with the query's own text: after the query with one literal, the query
      with the other gets its row. */
  lemma {:induction false} EchoesAreConfused(a: string, b: string, source: string -> Try<Rows>, mask: Rows -> Rows)
    requires SameWords(a, b) && a != b && (forall rows :: mask(rows) == rows)
    requires forall q :: source(q) == Returned([map["text" := Json.Text(q)]])
    ensures ExecuteResult(EnvWith(CachedBy([Query(a)], source, mask), source, mask), b)
         == Executed(Some([map["text" := Json.Text(a)]]), [])
    ensures Alone(b, source, mask) == Executed(Some([map["text" := Json.Text(b)]]), [])
    ensures !AnswersExactly(source, mask)
  {
    SecondGetsFirst(a, b, source, mask);
    var rows, rows' := [map["text" := Json.Text(a)]], [map["text" := Json.Text(b)]];
    assert rows[0]["text"] != rows'[0]["text"];
    assert ExecuteResult(EnvWith(CachedBy([Query(a)], source, mask), source, mask), b) != Alone(b, source, mask);
  }

  /** Such a source, and a pair of queries. */
  lemma {:induction false} OpenOrdersAreConfused()
    ensures var a, b := ORDERS + "'A'", ORDERS + "'a'";
            !AnswersExactly(Echo, Identity)
            && ExecuteResult(EnvWith(CachedBy([Query(a)], Echo, Identity), Echo, Identity), b)
               == Alone(a, Echo, Identity)
            && Alone(a, Echo, Identity) != Alone(b, Echo, Identity)
  {
    ConfusedBehind(ORDERS);
  }

  lemma {:induction false} ConfusedBehind(front: string)
    ensures var a, b := front + "'A'", front + "'a'";
            !AnswersExactly(Echo, Identity)
            && ExecuteResult(EnvWith(CachedBy([Query(a)], Echo, Identity), Echo, Identity), b)
               == Alone(a, Echo, Identity)
            && Alone(a, Echo, Identity) != Alone(b, Echo, Identity)
  {
    var a, b := front + "'A'", front + "'a'";
    assert a[|front| + 1] == 'A' && b[|front| + 1] == 'a';
    LiteralCaseIsConfused(front);
    EchoesAreConfused(a, b, Echo, Identity);
    SecondGetsFirst(a, b, Echo, Identity);
    assert Echo(a).value[0]["text"] != Echo(b).value[0]["text"];
  }

  const ORDERS := "select * from orders where status = "

  function Echo(sql: string): Try<Rows>
  {
    Returned([map["text" := Json.Text(sql)]])
  }

  function Identity(rows: Rows): Rows
  {
    rows
  }
}

/** `execute_sql` and the main loop: the schema is fetched once; then each
    question is either an exit token, which ends the session, or is turned into
    a prompt, sent to the model, cleaned into a candidate and passed through the
    safety gate, and only an accepted candidate is handed to the database.
    The model and the database are objects that log every request they receive;
    their answer to a request may depend on how many requests came before, so
    the same prompt may get different completions and the same query different
    rows. */
module Session {
  import opened Text
  import opened Gate
  import opened Cleanup
  import opened Schema
  import opened Prompt

  /** One fetched row: its column values as the driver renders them. */
  type Row = seq<string>

  /** What the database does with a query: the rows `fetchall` returns, or the
      error that the `except` branch catches. */
  datatype DbReply = Fetched(rows: seq<Row>) | DbFailed(message: string)

  /** What `ollama.chat` does with a prompt: the completion's content, or an
      error, which nothing in the program catches. */
  datatype GenReply = Completion(content: string) | GenFailed(message: string)

  /** The four reports of one question, which never coincide: rejected by the
      gate, ran with no rows, ran with rows, or failed in the database. */
  datatype Outcome = Rejected | NoRows | Rows(rows: seq<Row>) | ExecError(message: string)

  /** One answered question. */
  datatype Report = Report(question: string, sql: string, outcome: Outcome)

  /** Why the session stopped. */
  datatype SessionEnd =
    | NoSchema                        // the schema could not be loaded
    | ExitRequested                   // an exit token was entered
    | GenerationFailed(message: string) // the model call raised
    | InputExhausted                  // no more input

  /** The PostgreSQL server: `received` logs every query handed to it, and
      `answer(n, q)` is its reply to `q` when `n` queries came before. */
  class Database {
    var received: seq<string>
    const answer: (nat, string) -> DbReply

    constructor (answer: (nat, string) -> DbReply)
      ensures this.answer == answer && received == []
    {
      this.answer := answer;
      received := [];
    }

    /** The reply to `query` when `n` queries came before. */
    function Reply(n: nat, query: string): DbReply {
      answer(n, query)
    }

    /** Connect, `cur.execute(query)`, `cur.fetchall()`; or the error raised. */
    method Run(query: string) returns (reply: DbReply)
      modifies this
      ensures received == old(received) + [query]
      ensures reply == Reply(|old(received)|, query)
    {
      reply := Reply(|received|, query);
      received := received + [query];
    }
  }

  /** The language model: `received` logs every prompt sent to it, and
      `answer(n, p)` is its reply to `p` when `n` prompts came before. */
  class LanguageModel {
    var received: seq<string>
    const answer: (nat, string) -> GenReply

    constructor (answer: (nat, string) -> GenReply)
      ensures this.answer == answer && received == []
    {
      this.answer := answer;
      received := [];
    }

    /** The reply to `prompt` when `n` prompts came before. */
    function Reply(n: nat, prompt: string): GenReply {
      answer(n, prompt)
    }

    /** `ollama.chat` with the prompt as the one user message. */
    method Chat(prompt: string) returns (reply: GenReply)
      modifies this
      ensures received == old(received) + [prompt]
      ensures reply == Reply(|old(received)|, prompt)
    {
      reply := Reply(|received|, prompt);
      received := received + [prompt];
    }
  }

  /** `question.lower() in ["exit", "quit", "q"]`: no trimming. */
  predicate IsExitToken(question: string) {
    Lower(question) in ["exit", "quit", "q"]
  }

  /** The report `execute_sql` gives for `sql` when the database would answer
      `reply`: rejected exactly when the gate says no; otherwise the database's
      answer, with an empty result kept apart from a non-empty one and from an
      error. */
  predicate IsOutcomeOf(outcome: Outcome, sql: string, reply: DbReply) {
    (outcome.Rejected? <==> !IsSelectQuery(sql)) &&
    (outcome.NoRows? <==> IsSelectQuery(sql) && reply == Fetched([])) &&
    (outcome.Rows? <==> IsSelectQuery(sql) && reply.Fetched? && reply.rows != []) &&
    (outcome.Rows? ==> outcome.rows == reply.rows) &&
    (outcome.ExecError? <==> IsSelectQuery(sql) && reply.DbFailed?) &&
    (outcome.ExecError? ==> outcome.message == reply.message)
  }

  /** `execute_sql`: the database receives the candidate only when the gate
      accepts it, and the report is built from the database's reply. */
  method ExecuteSql(sql: string, db: Database) returns (outcome: Outcome)
    modifies db
    ensures db.received == old(db.received) + (if IsSelectQuery(sql) then [sql] else [])
    ensures IsOutcomeOf(outcome, sql, db.Reply(|old(db.received)|, sql))
  {
    if !IsSelectQuery(sql) {
      return Rejected;
    }
    var reply := db.Run(sql);
    match reply
    case DbFailed(message) =>
      outcome := ExecError(message);
    case Fetched(rows) =>
      outcome := if rows == [] then NoRows else Rows(rows);
  }

  /** `report` is what one pass of the loop gives for `question` when the
      model replied `completion` and the database would reply `reply`: the
      completion was cleaned into the report's candidate, and the candidate
      went through `execute_sql`. */
  predicate Answers(report: Report, question: string, completion: GenReply, reply: DbReply,
                    clean: string -> string) {
    report.question == question &&
    completion.Completion? &&
    report.sql == clean(completion.content) &&
    IsOutcomeOf(report.outcome, report.sql, reply)
  }

  /** The queries of the reports whose candidate reached the database. */
  function Executed(reports: seq<Report>): seq<string>
    decreases |reports|
  {
    if |reports| == 0 then []
    else
      var last := reports[|reports| - 1];
      Executed(reports[..|reports| - 1]) + (if last.outcome.Rejected? then [] else [last.sql])
  }

  /** The database's replies, one per report in order, when the first query
      it receives here is its request number `d0`: each report's query is the
      request numbered `d0` plus the count of queries run before it. A rejected
      report's entry is never used. */
  function RepliesTo(db: Database, d0: nat, reports: seq<Report>): (replies: seq<DbReply>)
    ensures |replies| == |reports|
    decreases |reports|
  {
    if |reports| == 0 then []
    else
      var n := |reports| - 1;
      RepliesTo(db, d0, reports[..n]) + [db.Reply(d0 + |Executed(reports[..n])|, reports[n].sql)]
  }

  /** The loop's record after some passes: one report per prompt, in order.
      The `n`-th prompt was the model's request number `m0 + n`, and the
      `n`-th report follows its completion and the database's reply to its
      query, which was request number `d0` plus the count of queries run
      before it. */
  predicate InStep(reports: seq<Report>, prompts: seq<string>, questions: seq<string>,
                   llm: LanguageModel, m0: nat, db: Database, d0: nat, clean: string -> string)
    decreases |reports|
  {
    |reports| == |prompts| <= |questions| &&
    (|reports| > 0 ==>
      var n := |reports| - 1;
      InStep(reports[..n], prompts[..n], questions, llm, m0, db, d0, clean) &&
      !IsExitToken(questions[n]) &&
      Answers(reports[n], questions[n], llm.Reply(m0 + n, prompts[n]), db.Reply(d0 + |Executed(reports[..n])|, reports[n].sql), clean))
  }

  /** One more answered question, whose prompt the model answered and whose
      query met the database's next reply, keeps the record in step. */
  lemma InStepSnoc(reports: seq<Report>, prompts: seq<string>, questions: seq<string>,
                   llm: LanguageModel, m0: nat, db: Database, d0: nat, clean: string -> string,
                   prompt: string, completion: GenReply, reply: DbReply, r: Report)
    requires InStep(reports, prompts, questions, llm, m0, db, d0, clean)
    requires |reports| < |questions| && !IsExitToken(questions[|reports|])
    requires completion == llm.Reply(m0 + |reports|, prompt)
    requires reply == db.Reply(d0 + |Executed(reports)|, r.sql)
    requires Answers(r, questions[|reports|], completion, reply, clean)
    ensures InStep(reports + [r], prompts + [prompt], questions, llm, m0, db, d0, clean)
  {
    assert (reports + [r])[..|reports|] == reports;
    assert (prompts + [prompt])[..|prompts|] == prompts;
  }

  /** The record read question by question: the `j`-th report follows the
      model's `j`-th completion and the database's reply to its query. */
  lemma {:induction false} InStepAnswers(reports: seq<Report>, prompts: seq<string>, questions: seq<string>,
                                         llm: LanguageModel, m0: nat,
                                         db: Database, d0: nat, clean: string -> string)
    requires InStep(reports, prompts, questions, llm, m0, db, d0, clean)
    ensures forall j :: 0 <= j < |reports| ==>
      !IsExitToken(questions[j]) &&
      Answers(reports[j], questions[j], llm.Reply(m0 + j, prompts[j]), RepliesTo(db, d0, reports)[j], clean)
    decreases |reports|
  {
    if |reports| > 0 {
      var n := |reports| - 1;
      InStepAnswers(reports[..n], prompts[..n], questions, llm, m0, db, d0, clean);
      forall j | 0 <= j < n
        ensures !IsExitToken(questions[j]) && Answers(reports[j], questions[j], llm.Reply(m0 + j, prompts[j]), RepliesTo(db, d0, reports)[j], clean)
      {
        assert reports[..n][j] == reports[j] && prompts[..n][j] == prompts[j];
      }
    }
  }

  /** Appending to a log in two steps is appending once. */
  lemma LogGrows(log: seq<string>, earlier: seq<string>, later: seq<string>)
    ensures log + earlier + later == log + (earlier + later)
  {
  }

  /** Every query of a report that was not rejected passed the gate. */
  lemma {:induction false} ExecutedAreAccepted(reports: seq<Report>)
    requires forall j :: 0 <= j < |reports| ==> (reports[j].outcome.Rejected? <==> !IsSelectQuery(reports[j].sql))
    ensures forall k :: 0 <= k < |Executed(reports)| ==> IsSelectQuery(Executed(reports)[k])
    decreases |reports|
  {
    if |reports| > 0 {
      ExecutedAreAccepted(reports[..|reports| - 1]);
    }
  }

  /** The body of the loop for a question whose prompt the model answered with
      `content`: clean the completion and run it through `execute_sql`. */
  method AnswerQuestion(question: string, completion: GenReply, clean: string -> string, db: Database)
    returns (report: Report)
    requires completion.Completion?
    modifies db
    ensures db.received == old(db.received) + (if report.outcome.Rejected? then [] else [report.sql])
    ensures Answers(report, question, completion, db.Reply(|old(db.received)|, report.sql), clean)
  {
    var sql := clean(completion.content);
    var outcome := ExecuteSql(sql, db);
    report := Report(question, sql, outcome);
  }

  /** The prompt builder of a session whose schema text is `schema`. */
  function PromptFor(schema: string): string -> string {
    question => BuildPrompt(question, schema)
  }

  /** The prompt `build` makes for `question`. */
  function Prompted(build: string -> string, question: string): string {
    build(question)
  }

  /** Each prompt is `build` of the question at its position. */
  predicate PromptsOf(prompts: seq<string>, questions: seq<string>, build: string -> string)
    decreases |prompts|
  {
    |prompts| <= |questions| &&
    (|prompts| > 0 ==>
      var n := |prompts| - 1;
      PromptsOf(prompts[..n], questions, build) && prompts[n] == Prompted(build, questions[n]))
  }

  /** One pass of the loop for `question`, the one after the `|reports|`
      answered ones, which is not an exit token: `get_sql_from_question` builds its
      prompt with `build` and asks the model; when the model answers, the
      completion is cleaned with `clean` and the candidate goes through
      `execute_sql`. `prompts` and `reports` record the earlier passes, and
      `llmLog` and `dbLog` what the model and the database received before
      the loop. */
  method Pass(build: string -> string, clean: string -> string, question: string, questions: seq<string>,
              llm: LanguageModel, db: Database, ghost reports: seq<Report>, ghost prompts: seq<string>,
              ghost llmLog: seq<string>, ghost dbLog: seq<string>)
    returns (prompt: string, reply: GenReply, report: Report)
    requires |reports| < |questions| && question == questions[|reports|] && !IsExitToken(question)
    requires llm.received == llmLog + prompts && db.received == dbLog + Executed(reports)
    requires InStep(reports, prompts, questions, llm, |llmLog|, db, |dbLog|, clean)
    requires PromptsOf(prompts, questions, build)
    modifies llm, db
    ensures PromptsOf(prompts + [prompt], questions, build)
    ensures llm.received == llmLog + (prompts + [prompt])
    ensures reply == llm.Reply(|llmLog| + |reports|, prompt)
    ensures reply.GenFailed? ==> db.received == old(db.received)
    ensures reply.Completion? ==>
      db.received == dbLog + Executed(reports + [report]) &&
      InStep(reports + [report], prompts + [prompt], questions, llm, |llmLog|, db, |dbLog|, clean)
  {
    prompt := Prompted(build, question);
    reply := llm.Chat(prompt);
    LogGrows(llmLog, prompts, [prompt]);
    assert (prompts + [prompt])[..|prompts|] == prompts;
    if reply.GenFailed? {
      report := Report(question, "", Rejected); // not used: the call raised
      return;
    }
    report := AnswerQuestion(question, reply, clean, db);
    InStepSnoc(reports, prompts, questions, llm, |llmLog|, db, |dbLog|, clean,
               prompt, reply, db.Reply(|old(db.received)|, report.sql), report);
    ghost var ran := if report.outcome.Rejected? then [] else [report.sql];
    assert (reports + [report])[..|reports|] == reports;
    LogGrows(dbLog, Executed(reports), ran);
  }

  /** What the question loop leaves behind when it stops with `end`, the
      model having received `llmLog` and the database `dbLog` before it: the
      model received the prompts and the database the queries of the reports
      not rejected; each prompt is `build` of its question and each report
      follows its prompt's completion; and `end` says exactly why the loop
      stopped. */
  predicate Conversed(end: SessionEnd, reports: seq<Report>, prompts: seq<string>, questions: seq<string>,
                      llm: LanguageModel, llmLog: seq<string>, db: Database, dbLog: seq<string>,
                      build: string -> string, clean: string -> string)
    reads llm, db
  {
    llm.received == llmLog + prompts &&
    db.received == dbLog + Executed(reports) &&
    |reports| <= |prompts| <= |questions| &&
    PromptsOf(prompts, questions, build) &&
    InStep(reports, prompts[..|reports|], questions, llm, |llmLog|, db, |dbLog|, clean) &&
    match end
    case NoSchema => false
    case ExitRequested =>
      |prompts| == |reports| < |questions| && IsExitToken(questions[|reports|])
    case GenerationFailed(message) =>
      |prompts| == |reports| + 1 <= |questions| && !IsExitToken(questions[|reports|]) &&
      llm.Reply(|llmLog| + |reports|, prompts[|reports|]) == GenFailed(message)
    case InputExhausted =>
      |prompts| == |reports| == |questions|
  }

  /** The question loop, with `build` making the prompt of a question and
      `clean` the candidate of a completion; `llmLog` and `dbLog` are what the
      model and the database received before it. */
  method Converse(build: string -> string, clean: string -> string, questions: seq<string>,
                  llm: LanguageModel, db: Database, ghost llmLog: seq<string>, ghost dbLog: seq<string>)
    returns (end: SessionEnd, reports: seq<Report>, prompts: seq<string>)
    requires llm.received == llmLog && db.received == dbLog
    modifies llm, db
    ensures Conversed(end, reports, prompts, questions, llm, llmLog, db, dbLog, build, clean)
    ensures forall k :: |dbLog| <= k < |db.received| ==> IsSelectQuery(db.received[k])
  {
    reports, prompts := [], [];
    end := InputExhausted;
    var i := 0;
    while i < |questions|
      invariant i == |reports| <= |questions|
      invariant llm.received == llmLog + prompts
      invariant db.received == dbLog + Executed(reports)
      invariant InStep(reports, prompts, questions, llm, |llmLog|, db, |dbLog|, clean)
      invariant PromptsOf(prompts, questions, build)
    {
      var question := questions[i];
      if IsExitToken(question) {
        end := ExitRequested;
        break;
      }
      var prompt, reply, report := Pass(build, clean, question, questions, llm, db, reports, prompts, llmLog, dbLog);
      if reply.GenFailed? {
        end := GenerationFailed(reply.message);
        assert (prompts + [prompt])[..i] == prompts;
        prompts := prompts + [prompt];
        break;
      }
      reports, prompts := reports + [report], prompts + [prompt];
      i := i + 1;
    }
    if !end.GenerationFailed? {
      assert prompts[..i] == prompts;
    }
    QueriesRunAccepted(reports, prompts[..i], questions, llm, |llmLog|, db, |dbLog|, clean, dbLog, db.received);
  }

  /** The main loop. `questions` are the lines the user types, in order.
      `prompts` are the prompts the model received during the session, and the
      queries the database received are those of the reports not rejected. */
  method RunSession(catalog: Catalog, questions: seq<string>, llm: LanguageModel, db: Database)
    returns (end: SessionEnd, reports: seq<Report>, prompts: seq<string>)
    modifies llm, db
    // startup: only a failed fetch stops the session before the loop
    ensures end.NoSchema? <==> catalog.CatalogError?
    ensures end.NoSchema? ==>
      reports == [] && prompts == [] && llm.received == old(llm.received) && db.received == old(db.received)
    // the loop, with the prompts of `build_prompt` and the cleanup of `get_sql_from_question`
    ensures !end.NoSchema? ==>
      Conversed(end, reports, prompts, questions, llm, old(llm.received), db, old(db.received),
                PromptFor(SchemaText(catalog)), CleanSql)
    // the safety property: the database only ever receives accepted candidates
    ensures forall k :: |old(db.received)| <= k < |db.received| ==> IsSelectQuery(db.received[k])
  {
    var schema := FetchSchema(catalog);
    SchemaTextEmptyIffFailed(catalog);
    if schema == "" {
      return NoSchema, [], [];
    }
    assert llm.received == old(llm.received) && db.received == old(db.received);
    var build := PromptFor(schema);
    end, reports, prompts := Converse(build, CleanSql, questions, llm, db, old(llm.received), old(db.received));
  }

  /** Reading `PromptsOf` position by position: each prompt is `build` of
      the question at its index. */
  lemma {:induction false} PromptsApplied(prompts: seq<string>, questions: seq<string>, build: string -> string)
    requires PromptsOf(prompts, questions, build)
    ensures |prompts| <= |questions|
    ensures forall j :: 0 <= j < |prompts| ==> prompts[j] == build(questions[j])
    decreases |prompts|
  {
    if |prompts| > 0 {
      var n := |prompts| - 1;
      PromptsApplied(prompts[..n], questions, build);
      forall j | 0 <= j < n ensures prompts[j] == build(questions[j]) {
        assert prompts[..n][j] == prompts[j];
      }
    }
  }

  /** The prompts of a session are `build_prompt` of each question with the
      session's schema text. */
  lemma PromptsBuilt(prompts: seq<string>, questions: seq<string>, schema: string)
    requires PromptsOf(prompts, questions, PromptFor(schema))
    ensures forall j :: 0 <= j < |prompts| ==> prompts[j] == BuildPrompt(questions[j], schema)
  {
    PromptsApplied(prompts, questions, PromptFor(schema));
  }

  /** Every query added to the database's log by the loop passed the gate. */
  lemma QueriesRunAccepted(reports: seq<Report>, prompts: seq<string>, questions: seq<string>,
                           llm: LanguageModel, m0: nat, db: Database, d0: nat, clean: string -> string,
                           log0: seq<string>, log: seq<string>)
    requires InStep(reports, prompts, questions, llm, m0, db, d0, clean)
    requires log == log0 + Executed(reports)
    ensures forall k :: |log0| <= k < |log| ==> IsSelectQuery(log[k])
  {
    InStepAnswers(reports, prompts, questions, llm, m0, db, d0, clean);
    ExecutedAreAccepted(reports);
    forall k | |log0| <= k < |log| ensures IsSelectQuery(log[k]) {
      assert log[k] == Executed(reports)[k - |log0|];
    }
  }

  /** The exit tokens are matched ignoring case but not surrounding spaces. */
  lemma ExitTokenExamples()
    ensures IsExitToken("quit") && IsExitToken("EXIT") && IsExitToken("Q")
    ensures !IsExitToken(" exit") && !IsExitToken("exit ")
  {
    assert Lower("quit") == "quit";
    assert Lower("EXIT") == "exit";
    assert Lower("Q") == "q";
    assert Lower(" exit") == " exit";
    assert Lower("exit ") == "exit ";
  }
}

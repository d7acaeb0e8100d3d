# Natural-language SQL assistant — a Dafny model of its query pipeline

The program asks a local language model to translate a user's question about a
PostgreSQL expense database into SQL, cleans the model's answer, passes it
through a keyword-based safety gate and, when the gate accepts it, runs it and
prints the rows. This project models that pipeline from `query.py`:

- `Text` — the ASCII behaviour of the Python string operations the pipeline
  relies on (`lower`, `upper`, `strip`, `startswith`, `in`, `splitlines`,
  `"\n".join`) with their algebra: stripping is idempotent and trims both ends,
  splitting a join of break-free lines gives the lines back, substring search
  means "occurs at some index".
- `Gate` — `is_select_query`: the prefix test (`select`/`with` after trimming
  and lower-casing) and the blacklist scan for `insert`, `update`, `delete`,
  `drop`, `alter`, `truncate` anywhere in the lower-cased text.
- `Cleanup` — the cleanup in `get_sql_from_question`: trim, split into lines,
  drop the lines that start with `sql:`, `section` or `note` (trimmed and
  lower-cased), join and trim again.
- `Schema` — `fetch_schema`'s rendering of the catalog rows into the
  `Tables:` block, with its `+=` loop as a method, and the empty string on a
  failed fetch.
- `Prompt` — `build_prompt`: the fixed instruction block followed by the schema
  and the question.
- `Session` — `execute_sql` and the main loop: exit tokens, one prompt per
  question, the cleaned candidate, the gate, and the four reports (rejected,
  no rows, rows, database error). The model and the database are objects
  that log every request they receive; each answers a request as a function
  of the request and of how many requests came before, so the same prompt
  may get different completions and the same query different rows, and the
  session's contract holds whatever they answer. The central property is that
  every query in the database's log since the session started passed the
  gate.

## Model

| member | source | states |
|---|---|---|
| Gate.IsSelectQuery | query.py:81-86 | a text is accepted exactly when its trimmed, lower-cased form starts with `select` or `with` and none of the six forbidden keywords starts at any index of its lower-cased form; acceptance implies the prefix test |
| Gate.ForbiddenKeywordAt | query.py:83-84 | the `any(keyword in sql.lower())` scan holds exactly when some keyword occurs at some index |
| Gate.ForbiddenAnywhereRejected | query.py:83-85 | a forbidden keyword in any mix of case, at any position, rejects the text whatever it starts with |
| Gate.DropTableRejected | query.py:81-86 | `DROP TABLE expenses;` is rejected |
| Gate.UpdatedAtRejected | query.py:83-85 | `SELECT "updated_at" FROM t` is rejected: the keyword scan is substring-based, so a column name containing `update` is a false positive |
| Gate.SumQueryAccepted | query.py:81-86 | `SELECT SUM("amount") FROM expenses;` is accepted |
| Gate.WithoutAccepted | query.py:82 | `without` is accepted: the prefix test checks the characters `with`, not a keyword |
| Cleanup.KeepLinesIsSubsequence | query.py:98 | the line filter keeps exactly the lines that are not scaffolding, each unchanged and in the original order |
| Cleanup.KeepLinesClean | query.py:98 | no kept line is scaffolding and every kept line is one of the input lines |
| Cleanup.KeepLinesAllKept | query.py:98 | lines that are all free of scaffolding pass the filter unchanged |
| Cleanup.CleanSqlLines | query.py:94-99 | every cleaned candidate is a `"\n"`-join of break-free lines, none of them scaffolding, the last one non-empty |
| Cleanup.CleanSqlHasNoScaffolding | query.py:94-99 | no line of a cleaned candidate starts, trimmed and lower-cased, with `sql:`, `section` or `note` |
| Cleanup.CleanSqlIsStripped | query.py:99 | a cleaned candidate has no surrounding whitespace |
| Cleanup.CleanSqlIdempotent | query.py:94-99 | cleaning a cleaned candidate gives it back unchanged |
| Cleanup.CleanSqlOfBlank | query.py:94-99 | an empty or all-whitespace completion cleans to the empty string |
| Cleanup.CleanSqlKeepsCleanText | query.py:94-99 | a `\n`-separated completion whose lines carry no scaffolding is only trimmed; other line breaks become `\n` |
| Cleanup.LabelLineRemoved | query.py:96-99 | the completion `SQL:` + newline + `SELECT * FROM expenses;` cleans to the query alone |
| Schema.FetchSchema | query.py:14-43 | the `+=` loop yields the schema text: `""` when the catalog cannot be read, otherwise `Tables:` and a newline followed by the table lines joined with newlines |
| Schema.ListingStripped | query.py:35-43 | the final `strip()` removes exactly the newline after the last table line |
| Schema.RenderSchemaLines | query.py:27-43 | the schema text splits into the header line `Tables:` followed by one line per table, in catalog order, when no name or type holds a line break |
| Schema.TableLineShape | query.py:35 | each table line is `- ` + the table name + `(`, ..., `)` |
| Schema.ColumnEntryVerbatim | query.py:34 | a column entry is its name verbatim, one space, then its type in upper case: equal to the type up to case, with no lower-case ASCII letter |
| Schema.SchemaTextEmptyIffFailed | query.py:39-43 | the schema text is empty exactly when the fetch failed; a readable catalog with no tables gives `Tables:` and a newline |
| Prompt.PromptEmbedsInputs | query.py:46-75 | the prompt is the instruction block, the schema verbatim, a blank line, `Question: ` and the question verbatim, then `SQL:` on its own line |
| Prompt.PromptDeterminesQuestion | query.py:46-75 | with the schema fixed, different questions give different prompts |
| Session.Database.Run | query.py:110-114 | running a query appends it to the database's log, and the reply is the database's answer to that query as its request number `n`, `n` being the length of the log before |
| Session.LanguageModel.Chat | query.py:89-93 | sending a prompt appends it to the model's log, and the reply is the model's answer to that prompt as its request number `n`, `n` being the length of the log before |
| Session.ExecuteSql | query.py:105-125 | the candidate is appended to the database's log exactly when the gate accepts it, and nothing else is; the report is rejected exactly when the gate refuses, otherwise no rows, the rows, or the error message of the database's reply to that request, and these cases never overlap |
| Session.AnswerQuestion | query.py:96-99 | given a completion, the report's candidate is the cleaned completion, the database's log grows by that candidate exactly when it was not rejected, and the outcome follows the database's reply to it |
| Session.Pass | query.py:134-143 | one pass for a question that is not an exit token: its prompt is appended to the model's log as the next request; if the model fails the database's log is unchanged, otherwise the record of answered questions grows by one report in step with the two logs |
| Session.InStepSnoc | query.py:134-143 | a further question, not an exit token, answered from the model's next completion and the database's next reply, keeps the reports and prompts aligned with the questions |
| Session.InStepAnswers | query.py:134-143 | in the record, the `j`-th question is not an exit token and its report follows the model's `j`-th reply in the session and the database's reply to that report's query |
| Session.ExecutedAreAccepted | query.py:105-108 | every query of a report that was not rejected passed the gate |
| Session.QueriesRunAccepted | query.py:105-108 | every query appended to the database's log during the loop passed the gate |
| Session.Converse | query.py:134-143 | the loop stops at the first exit token (no prompt for it), at the first model failure (whose prompt is the last one sent and whose question gets no report), or at the end of input; every question before the stop gets a prompt, in the model's log in order, and a report; the database's log grows by the non-rejected queries, in order, and by nothing else, all of them accepted by the gate |
| Session.RunSession | query.py:128-143 | a failed schema fetch ends the program before any question, with both logs unchanged; otherwise the loop runs with each prompt built from its question and the fetched schema text, the stop reason is exact, and every query the database received passed the gate |
| Session.PromptsApplied | query.py:134-139 | the prompts of the loop are the prompt builder applied to each question in order, at most one per question |
| Session.PromptsBuilt | query.py:139 | the prompts of the session are `build_prompt` of each question with the one schema text |
| Session.ExitTokenExamples | query.py:136 | `quit`, `EXIT` and `Q` end the session; ` exit` and `exit ` do not |
| Text.ContainsAt | query.py:84 | `w in s` holds exactly when `w` occurs at some index of `s` |
| Text.StripShape | query.py:82 | `strip()` leaves no surrounding whitespace and gives `""` exactly for all-whitespace text |
| Text.StripIdempotent | query.py:94 | stripping twice is stripping once |
| Text.SplitJoin | query.py:97-99 | splitting a newline-join of break-free lines, the last one non-empty, gives the lines back |

## Left out

- The database connection, the two catalog queries and the query execution (`psycopg2`, `DB_CONFIG`) are not modelled: the catalog is a value (its tables, or a failure), and the database is an object whose reply to a query is a fixed function of the query and of the number of queries it received before; a server whose state changes for other reasons is covered only in so far as that function can describe it.
- The `ollama.chat` call is an object whose reply to a prompt is a fixed function of the prompt and of the number of prompts it received before, so sampling is covered as a choice made per request; the network is not modelled. The call is not inside a `try`, so a model error ends the program; it is modelled as the `GenerationFailed` end of the session, and the question that caused it gets no report.
- The end of input (`input()` raising `EOFError`) is modelled as the `InputExhausted` end; an interrupt is not modelled.
- Printing (`print` of the generated SQL, the rows and the error messages) is not modelled; what would be printed is carried in the reports.
- Text handling follows Python only on ASCII: Unicode case mapping (which can change a string's length), Unicode whitespace beyond ASCII and the separators U+0085, U+2028 and U+2029 in `splitlines` are not modelled.
- Schema.FetchSchema: the column query filters on the table name only, so columns of a same-named table in another schema would be mixed in; the catalog value is taken as already grouped by table.
- Schema.RenderSchemaLines: the schema text is not parseable back into tables (names and types may hold spaces, commas and parentheses), so the round trip is stated at the level of lines, not of tables.
- Session.RunSession: the `exit()` after a failed schema fetch is the `NoSchema` end; the loop is modelled as a finite sequence of input lines.
- `FastPdf.py` and `PDF.py`, the PDF question-answering chatbot (retrieval over one PDF and a hosted model, served over HTTP and from a console loop), are not part of this model.

Where the description of the program and the code differ, the model follows
the code: a readable catalog with no tables still gives the non-empty text
`Tables:` and a newline, so the session starts; and the exit test lower-cases
the input without trimming it, so ` exit` is sent to the model as a question.

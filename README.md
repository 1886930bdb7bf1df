# TextToSQL: a Dafny model of the query pipeline's own logic

TextToSQL is a Streamlit application that answers English questions about a student
exam-results table. A hosted generative model translates each question into SQL, the SQL
runs against a SQLite file, and the result table is shown and charted. Almost everything
is delegated to outside services. This model covers the three pieces of logic the
repository writes itself:

- **Cleaning the model's answer** (`generate_sql_from_text`, app.py). The text sent to the
  model is the instructions, then `"\nQuestion: "`, then the question. The answer is
  stripped, every "```sql" and then every "```" is deleted, and it is stripped again. If the
  result contains `AVG(` together with `WHERE` or `BETWEEN`, the whole query is replaced by
  one fixed `WITH avg_calculation ...` query. Modules `Text` (Python's `strip()`, `in` and
  `replace(p, "")` on strings), `FixedQuery` (the replacement query) and `SqlGeneration`.
  The model is a parameter `model: string -> string`.
- **Session bookkeeping** (`app_interface`, app.py). `st.session_state` keeps the current
  query, the last result table and a history of (question, SQL) pairs. Module
  `QuerySession` has a class `Session` whose methods update these fields as the script
  does, each proved against a pure step function. Lemmas about sequences of runs show
  that the history is append-only. How the database answers queries is given per run,
  as a function `string -> Execution` that returns a table or raises (module `Frames`).
  The database is per run because an executed statement may change it. For example,
  sqlite3 opens no transaction before DDL, so a generated `DROP TABLE` takes effect.
  Whether drawing the results raises in a run is also given per run.
- **Chart recommendation** (`VisualizationRecommender.recommend`,
  modules/viz_recommender.py). It is a rule table from a result table's column count, and
  the dtype of its second column, to one of five chart names. Module `VizRecommender`.
  A DataFrame is modelled as its row count and its list of column dtype names.

Proved properties include the following:
- no "```" survives the cleaning;
- the cleaning is idempotent;
- the usual answer shape, "```sql\n<query>\n```", unwraps to `<query>`;
- the rewrite fires on the exact upper-case substrings only (`AVG(`, `WHERE`, `BETWEEN`), and
  then it wins whatever the question was;
- a successful submission appends exactly one pair and a failed one appends none;
- re-running an entry never changes the history.

Two consequences of the code as written are proved as lemmas, not as defects to fix:
- The rewrite rule looks for `AVG(` and `WHERE` anywhere in the query. So the answer the
  instructions themselves give as an example, for "Find the average math score of male
  students", is discarded and the fixed query runs instead
  (`SqlGeneration.AvgWithPlainFilterReplaced`).
- `execute_sql_query` in sql.py catches every exception and returns an empty table. So
  with that executor, the `except` branch of app.py:151-153 is never taken, and every
  submitted question enters the history, even one whose SQL the database rejected
  (`QuerySession.GuardedExecutorRecordsEverySubmission`). The session model keeps the
  raising executor that app.py is written against, so both behaviours are covered.

`recommend` never reads the row count of the table it is given; the model keeps the row
count in `Frame` only so that this can be stated (`RecommendReadsOnlyShapeAndSecondDtype`).

## Model

| member | source | states |
|---|---|---|
| `Text.Strip` | app.py:71-72 | Python's `str.strip()`: the result is a slice of the input with no white space (the `str.isspace()` characters) at either end, and only white space is cut away on each side. |
| `Text.StripIdempotent` | app.py:71-72 | Stripping a stripped string changes nothing. |
| `Text.Contains` | app.py:76 | Python's `p in s`, case-sensitive: `p` occurs at some position of `s`; it never holds when `p` is longer than `s`. |
| `Text.RemoveAll` | app.py:72 | `s.replace(p, "")`: occurrences are deleted left to right without overlap; the result is never longer than the input. |
| `Text.RemoveAllAbsent` | app.py:72 | `replace` leaves a string without the pattern unchanged. |
| `Text.RemoveAllSplit` | app.py:72 | No occurrence can straddle a character the pattern lacks, so `replace` works on each side of it separately. |
| `SqlGeneration.ModelInput` | app.py:69 | The text sent to the model starts with the instructions, has `"\nQuestion: "` right after them, ends with the question, and is exactly as long as the three together. |
| `SqlGeneration.StripFences` | app.py:71-72 | After strip, both deletions and strip, the query has no white space at either end and contains no "```". |
| `SqlGeneration.FenceRemovalComplete` | app.py:72 | Deleting every "```" from left to right leaves no "```" in the string. |
| `SqlGeneration.NeedsAvgRewrite` | app.py:76 | The rewrite condition, defined as `AVG(` together with `WHERE` or `BETWEEN`, all case-sensitive. What it implies is stated by `LowerCaseAvgKept`, `LowerCaseFiltersKept` and `AvgRewriteIsClean`. |
| `SqlGeneration.CleanResponse` | app.py:71-83 | If the cleaned text matches the rule, the result is the fixed query; otherwise it is the cleaned text. The result is stripped and fence-free, and it matches the rule exactly when it is the fixed query. |
| `SqlGeneration.GenerateSqlFromText` | app.py:66-83 | The query returned for any question and any model answer is stripped and fence-free. When the model's cleaned answer matches the rule, the result is the fixed query whatever the question was; otherwise it is that cleaned answer. |
| `SqlGeneration.AvgRewriteIsClean` | app.py:76-81 | The fixed query has no white space at its ends and no fence, and it contains `AVG(`, `WHERE` and `BETWEEN`, so it matches its own rule. |
| `SqlGeneration.CleanIdempotent` | app.py:71-83 | Cleaning an already cleaned answer returns it unchanged. |
| `SqlGeneration.GeneratedSqlIsFixedPoint` | app.py:66-83 | A generated query is a fixed point of the cleaning. |
| `SqlGeneration.FencedAnswerUnwrapped` | app.py:71-72 | An answer "```sql\n<q>\n```", where q is stripped and has no fence, cleans to q, or to the fixed query if q matches the rule. |
| `SqlGeneration.LowerCaseAvgKept` | app.py:76 | The test is case-sensitive: a fenced, clean query without the exact substring `AVG(` comes back unchanged. |
| `SqlGeneration.LowerCaseFiltersKept` | app.py:76 | The keywords are case-sensitive too: a fenced, clean query with neither upper-case `WHERE` nor upper-case `BETWEEN` comes back unchanged, even when it holds `AVG(`. |
| `SqlGeneration.LowerCaseKeywordsKept` | app.py:76 | A concrete query with upper-case `AVG(` but lower-case `where` and `between` passes through unchanged. |
| `SqlGeneration.AvgWithPlainFilterReplaced` | app.py:75-81 | A query with `AVG(` in its SELECT list and a plain `WHERE GENDER = 'male'` filter is replaced by the fixed query. |
| `FixedQuery.AvgRewrite` | app.py:78-81 | The replacement query, built clause by clause from the literal of lines 79-80, is 189 characters long, as that literal is. |
| `FixedQuery.AvgRewriteHasNoBacktick` | app.py:78-81 | The fixed query holds no backtick, starts with `W` and ends with `;`. |
| `Frames.ExecuteSqlQuery` | sql.py:5-13 | The sql.py executor never raises. It returns the engine's table when there is one, and an empty table when the engine raises. |
| `QuerySession.SubmitStep` | app.py:141-156 | The generated query becomes the current query. If it runs, its table becomes the current results and exactly (question, query) is appended. If it raises, the results and the history are unchanged. |
| `QuerySession.RerunStep` | app.py:197-200 | Pressing entry i's button makes that entry's SQL current and, if it runs, its table the current results. The history is never changed, and with no button pressed nothing changes. |
| `QuerySession.InterfaceStep` | app.py:140-200 | One run of the interface appends exactly the submitted pair whose query ran, and nothing otherwise. A failed submission returns before the results are drawn (line 153), so even with a button pressed its query stays current and the results stay as they were. A successful one with no button pressed leaves its own query and table current. After a successful submission, or with none, the current table is drawn if it is non-empty (line 160). If drawing raises, the run ends there and no re-run happens. Otherwise the re-run section acts on the history as it then stands. |
| `QuerySession.HistoryIsRecordedSubmissions` | app.py:155-156 | Over any sequence of runs, the history becomes the old history followed by the successful submissions' pairs, in order. This holds even when the database changes between runs. |
| `QuerySession.HistoryOnlyGrows` | app.py:156 | Earlier history entries are never changed or removed. |
| `QuerySession.AtMostOneEntryPerSubmission` | app.py:148-156 | The runs add at most one entry per submission, and none for runs that did not submit. |
| `QuerySession.GuardedExecutorRecordsEverySubmission` | app.py:148-156 | When every run's queries go through the sql.py executor over that run's engine, the history grows by exactly one entry per submission, failed SQL included. |
| `QuerySession.Session.constructor` | app.py:31-34 | The session starts with no current query, no results and an empty history. |
| `QuerySession.Session.Submit` | app.py:140-156 | Generates the query and stores it. On an exception it returns early with the history unchanged. Otherwise it stores the table and appends exactly one pair at the end. |
| `QuerySession.Session.StoreAndExecute` | app.py:142-156 | Once the query is generated, the new state is `SubmitStep` of the old one, and `failed` holds exactly when the query raises. |
| `QuerySession.Session.RerunFromHistory` | app.py:197-200 | The loop over the history buttons ends in the state `RerunStep` gives, never modifies the history, and reports an exception from the pressed entry's query. |
| `QuerySession.Session.AppInterface` | app.py:140-200 | One run of the interface ends in the state `InterfaceStep` gives for the run it performed, which carries the query `GenerateSqlFromText` produced. `raised` holds exactly when the submission, if any, ran and then either drawing the current table raises or the pressed entry's query raises. |
| `VizRecommender.Recommend` | modules/viz_recommender.py:2-10 | Exactly one column gives "Histogram"; two columns give "Bar Chart" when the second column's dtype is `object` and "Scatter Plot" when it is not; more than two give "Heatmap"; none gives "Table". Each label holds exactly in its case, and the result is always one of the five. |
| `VizRecommender.RecommendReadsOnlyShapeAndSecondDtype` | modules/viz_recommender.py:4-10 | Two tables with the same column count, and the same second dtype where that matters, get the same chart. Row counts never matter. |

## Left out

- The calls to the generative model (`genai.configure`, `GenerativeModel`, `generate_content`) are not modelled. The model is a function parameter. An exception it raises is not modelled: app.py does not catch one, so the Streamlit run ends.
- The instruction text of app.py:110-138 is a parameter `prompt`. Its wording does not affect the bookkeeping or the cleaning.
- `authenticate` is left out: a SHA-256 comparison done by a foreign library, plus UI messages.
- `generate_prompt_suggestion` and the `suggestion` key are left out: they are another model call with a fixed fallback text.
- Streamlit rendering is left out: headings, the schema listing, the results table, the chart selector and the charts, the CSV download, and the suggestion box. It involves floating-point pie percentages and correlations. Drawing the results can raise, however. A one-column table under "Pie Chart" or "Scatter Plot" indexes `columns[1]`, and "Heatmap" calls `corr()` on text columns. Such an exception ends the run before the re-run section. Which chart is chosen, and what pandas and Streamlit do with it, are not modelled. Each run instead says whether drawing raises (`Run.displayRaises`), and the model acts on it only when line 160 draws anything.
- Within one run, the submitted query and a re-run query are answered by the same database function. A change the submitted statement makes is seen by later runs, not by a re-run in the same run. Streamlit reports one interaction per run, so a run that both submits and presses a button arises only in the model.
- The SQLite engine is left out and is a parameter. sql.py is modelled only as far as `execute_sql_query` catching every exception. `get_table_schema` is left out: it is database I/O shown only on screen.
- initialize_db.py, modules/feedback_loop.py, modules/anomaly_detection.py, modules/summarizer.py and modules/intent_classifier.py are not part of this model. They are a one-off data-loading script, JSON-lines file I/O, and wrappers around pretrained machine-learning models. None of them is called by the application.
- Streamlit reports at most one pressed button per run, so the re-run loop takes the index of the pressed button (or none). The script's re-execution from the top on every interaction is modelled as a sequence of runs.
- `Recommend` reads `data.dtypes[1]` as the second column's dtype, which is the positional fallback that pandas 2 applies to an integer key on a label-indexed Series. A frame whose column labels are themselves integers would be looked up by label. That case is not modelled.
- `Text.RemoveAll` is defined only for a non-empty pattern. With an empty pattern, `s.replace("", "")` returns `s` unchanged; the model requires a non-empty pattern because app.py only uses non-empty ones.
- `Text.RemoveAll`: its own contract states only the length bound. What the deletion means is stated by `Text.RemoveAllAbsent`, `Text.RemoveAllSplit` and `SqlGeneration.FenceRemovalComplete`.
- `FixedQuery.AvgRewrite`: its contract states the length of the literal of app.py:79-80, not its exact text. The seven clause constants of fixed_query.dfy spell that literal character for character, and `AvgRewrite` is their concatenation.

/** The session bookkeeping of `app_interface` (app.py): the generated query, the last
    result table and the history of (question, SQL) pairs that Streamlit keeps in
    `st.session_state` between runs of the script. The model and the SQL engine are
    parameters; so is which history button, if any, was pressed in this run (Streamlit
    reports at most one). */
module QuerySession {
  import opened Frames
  import opened SqlGeneration

  datatype Option<T> = None | Some(value: T)

  /** One history entry: the question asked and the SQL that ran for it. */
  type Entry = (string, string)

  /** The keys of `st.session_state` that the interface writes. `sql_query` is absent
      until a query has been generated; `query_results` starts as None (lines 33-34) and
      `query_history` as the empty list (lines 31-32). */
  datatype State = State(sqlQuery: Option<string>, queryResults: Option<Frame>, history: seq<Entry>)

  const Initial := State(None, None, [])

  /** One run of the script with the user logged in: the question and the query
      generated for it if the query form was submitted, the index of the re-run button
      pressed, if any, whether drawing the results (lines 159-193) raises in this run,
      and how the database answers queries during this run. The database is per run
      because an executed statement may change it: sqlite3 opens no transaction before
      DDL, so a generated `DROP TABLE` takes effect even when pandas then fails on it. */
  datatype Run = Run(submission: Option<Entry>, clicked: Option<nat>, displayRaises: bool,
                     database: string -> Execution)

  /** Lines 141-156, once the query is generated: the query is stored first; then it is
      executed, and only a query that ran is stored with its results and appended to the
      history. A raising query leaves the results and the history as they were. */
  function SubmitStep(s: State, question: string, sql: string, execute: string -> Execution): (t: State)
    ensures t.sqlQuery == Some(sql)
    ensures execute(sql).Returned? ==>
      t.history == s.history + [(question, sql)] && t.queryResults == Some(execute(sql).frame)
    ensures execute(sql).Raised? ==> t.history == s.history && t.queryResults == s.queryResults
  {
    match execute(sql)
    case Raised(_) => s.(sqlQuery := Some(sql))
    case Returned(frame) => State(Some(sql), Some(frame), s.history + [(question, sql)])
  }

  /** Lines 197-200: pressing the button of entry `i` makes that entry's SQL the current
      query and, if it runs, its table the current results. The history is never
      touched, and with no button pressed nothing changes. */
  function RerunStep(s: State, clicked: Option<nat>, execute: string -> Execution): (t: State)
    ensures t.history == s.history
    ensures clicked.Some? && clicked.value < |s.history| ==>
      t.sqlQuery == Some(s.history[clicked.value].1)
      && t.queryResults == (match execute(s.history[clicked.value].1)
                            case Returned(frame) => Some(frame)
                            case Raised(_) => s.queryResults)
    ensures clicked.None? || clicked.value >= |s.history| ==> t == s
  {
    if clicked.Some? && clicked.value < |s.history| then
      var sql := s.history[clicked.value].1;
      match execute(sql)
      case Raised(_) => s.(sqlQuery := Some(sql))
      case Returned(frame) => s.(sqlQuery := Some(sql), queryResults := Some(frame))
    else s
  }

  /** What one run adds to the history: the submitted pair if its query ran. */
  function RecordedBy(run: Run): seq<Entry> {
    match run.submission
    case Some((question, sql)) => if run.database(sql).Returned? then [(question, sql)] else []
    case None => []
  }

  /** Line 160: results are drawn only when there is a table and it is not empty
      (`DataFrame.empty` holds when either axis has length 0). */
  predicate Shown(results: Option<Frame>) {
    results.Some? && results.value.rows > 0 && results.value.ColumnCount() > 0
  }

  /** Lines 159-193 end the run with an exception: they are reached with `results`, draw
      them, and the chart code raises (a one-column table under "Pie Chart" or "Scatter
      Plot" indexes `columns[1]`; "Heatmap" calls `corr()` on text columns). Which chart is
      chosen and what pandas and Streamlit do with it are outside the model, so whether
      the drawing raises is the run's `displayRaises`. */
  predicate DisplayFails(results: Option<Frame>, displayRaises: bool) {
    displayRaises && Shown(results)
  }

  /** The bookkeeping of one run of `app_interface`: a submitted question is translated and
      executed; a failed execution returns at line 153, before the results and the history
      section; otherwise the results are drawn, and if that does not raise the pressed
      history button is handled. The history grows by exactly what `RecordedBy` says. */
  function InterfaceStep(s: State, run: Run): (t: State)
    ensures t.history == s.history + RecordedBy(run)
    ensures run.submission.Some? ==> t.sqlQuery.Some?
    // a failed submission returns early: even with a button pressed, the generated
    // query stays current and the results stay as they were
    ensures run.submission.Some? && run.database(run.submission.value.1).Raised? ==>
      t.sqlQuery == Some(run.submission.value.1) && t.queryResults == s.queryResults
    // a successful submission with no button pressed leaves its own query and table current
    ensures run.submission.Some? && run.database(run.submission.value.1).Returned? && run.clicked.None? ==>
      t.sqlQuery == Some(run.submission.value.1)
      && t.queryResults == Some(run.database(run.submission.value.1).frame)
    // a successful submission is followed by the drawing of its table and, unless that
    // raises, by the re-run section over the extended history
    ensures run.submission.Some? && run.database(run.submission.value.1).Returned? ==>
      var afterSubmit := SubmitStep(s, run.submission.value.0, run.submission.value.1, run.database);
      t == if DisplayFails(Some(run.database(run.submission.value.1).frame), run.displayRaises)
           then afterSubmit
           else RerunStep(afterSubmit, run.clicked, run.database)
    // without a submission the current results are drawn and, unless that raises, the
    // re-run section acts
    ensures run.submission.None? ==>
      t == if DisplayFails(s.queryResults, run.displayRaises) then s
           else RerunStep(s, run.clicked, run.database)
  {
    match run.submission
    case Some((question, sql)) =>
      var afterSubmit := SubmitStep(s, question, sql, run.database);
      if run.database(sql).Raised? || DisplayFails(afterSubmit.queryResults, run.displayRaises) then afterSubmit
      else RerunStep(afterSubmit, run.clicked, run.database)
    case None =>
      assert s.history + [] == s.history;
      if DisplayFails(s.queryResults, run.displayRaises) then s
      else RerunStep(s, run.clicked, run.database)
  }

  /** The state after a sequence of runs, in order. */
  function Replay(s: State, runs: seq<Run>): State
    decreases |runs|
  {
    if runs == [] then s else Replay(InterfaceStep(s, runs[0]), runs[1..])
  }

  /** Everything the runs append, in order. */
  function RecordedAll(runs: seq<Run>): seq<Entry>
    decreases |runs|
  {
    if runs == [] then [] else RecordedBy(runs[0]) + RecordedAll(runs[1..])
  }

  /** The runs in which the query form was submitted. */
  function SubmittedCount(runs: seq<Run>): nat
    decreases |runs|
  {
    if runs == [] then 0 else (if runs[0].submission.Some? then 1 else 0) + SubmittedCount(runs[1..])
  }

  /** The history is append-only: over any sequence of runs it becomes the old history
      followed by the pairs of the submissions whose query ran, in the order submitted,
      whatever the database did between runs. */
  lemma {:induction false} HistoryIsRecordedSubmissions(s: State, runs: seq<Run>)
    ensures Replay(s, runs).history == s.history + RecordedAll(runs)
    decreases |runs|
  {
    if runs != [] {
      var next := InterfaceStep(s, runs[0]);
      HistoryIsRecordedSubmissions(next, runs[1..]);
      assert s.history + RecordedBy(runs[0]) + RecordedAll(runs[1..])
          == s.history + (RecordedBy(runs[0]) + RecordedAll(runs[1..]));
    }
  }

  /** Earlier entries are never changed or removed. */
  lemma HistoryOnlyGrows(s: State, runs: seq<Run>)
    ensures |Replay(s, runs).history| >= |s.history|
    ensures Replay(s, runs).history[..|s.history|] == s.history
  {
    HistoryIsRecordedSubmissions(s, runs);
  }

  /** A run contributes at most one entry, and only when it submitted the form. */
  lemma {:induction false} AtMostOneEntryPerSubmission(runs: seq<Run>)
    ensures |RecordedAll(runs)| <= SubmittedCount(runs)
    decreases |runs|
  {
    if runs != [] {
      AtMostOneEntryPerSubmission(runs[1..]);
    }
  }

  /** When every run's queries go through the executor of sql.py, which turns every
      failure of that run's engine into an empty table, the except branch of lines 151-153
      is never taken: every submitted question enters the history, including one whose
      SQL the database rejected. */
  lemma {:induction false} GuardedExecutorRecordsEverySubmission(
    s: State, runs: seq<Run>, engines: seq<string -> Execution>)
    requires |engines| == |runs|
    requires forall k, query :: 0 <= k < |runs| ==>
      runs[k].database(query) == ExecuteSqlQuery(engines[k], query)
    ensures |Replay(s, runs).history| == |s.history| + SubmittedCount(runs)
    decreases |runs|
  {
    if runs != [] {
      var next := InterfaceStep(s, runs[0]);
      assert |next.history| == |s.history| + (if runs[0].submission.Some? then 1 else 0);
      GuardedExecutorRecordsEverySubmission(next, runs[1..], engines[1..]);
    }
  }

  /** `st.session_state` as the interface sees it: a map-like object whose entries the
      script overwrites, and whose history list it appends to in place. */
  class Session {
    var sqlQuery: Option<string>
    var queryResults: Option<Frame>
    var queryHistory: seq<Entry>

    /** The current values of the three keys. */
    function Snapshot(): State
      reads this
    {
      State(sqlQuery, queryResults, queryHistory)
    }

    /** Lines 31-34: the keys the first run creates (`sql_query` is created later). */
    constructor ()
      ensures Snapshot() == Initial
    {
      sqlQuery := None;
      queryResults := None;
      queryHistory := [];
    }

    /** Lines 140-156: generate the SQL, store it, execute it; on an exception return
        early (`failed`), otherwise store the table and append one pair to the history. */
    method Submit(question: string, prompt: string, model: string -> string, execute: string -> Execution)
      returns (sql: string, failed: bool)
      modifies this
      ensures sql == GenerateSqlFromText(question, prompt, model)
      ensures failed <==> execute(sql).Raised?
      ensures Snapshot() == SubmitStep(old(Snapshot()), question, sql, execute)
      ensures !failed ==> queryHistory == old(queryHistory) + [(question, sql)]
      ensures failed ==> queryHistory == old(queryHistory)
    {
      sql := GenerateSqlFromText(question, prompt, model);
      failed := StoreAndExecute(question, sql, execute);
    }

    /** Lines 142-156, once the query is generated: store it, execute it, and on success
        store the table and append the pair. */
    method StoreAndExecute(question: string, sql: string, execute: string -> Execution)
      returns (failed: bool)
      modifies this
      ensures failed <==> execute(sql).Raised?
      ensures Snapshot() == SubmitStep(old(Snapshot()), question, sql, execute)
      ensures !failed ==> queryHistory == old(queryHistory) + [(question, sql)]
      ensures failed ==> queryHistory == old(queryHistory)
    {
      sqlQuery := Some(sql);
      var outcome := execute(sql);
      if outcome.Raised? {
        failed := true;
        return;
      }
      failed := false;
      queryResults := Some(outcome.frame);
      queryHistory := queryHistory + [(question, sql)];
    }

    /** Lines 197-200: walk the history, one button per entry; for the pressed one, make
        its SQL current and execute it. An exception there is not caught (`raised`) and
        ends the run. The history itself is only read. */
    method RerunFromHistory(clicked: Option<nat>, execute: string -> Execution) returns (raised: bool)
      modifies this
      ensures Snapshot() == RerunStep(old(Snapshot()), clicked, execute)
      ensures queryHistory == old(queryHistory)
      ensures raised <==> clicked.Some? && clicked.value < |queryHistory|
                          && execute(queryHistory[clicked.value].1).Raised?
    {
      raised := false;
      var i: nat := 0;
      while i < |queryHistory|
        invariant i <= |queryHistory|
        invariant queryHistory == old(queryHistory)
        invariant Snapshot() == if clicked.Some? && clicked.value < i
                                then RerunStep(old(Snapshot()), clicked, execute)
                                else old(Snapshot())
        invariant clicked.Some? && clicked.value < i ==> execute(queryHistory[clicked.value].1).Returned?
        invariant !raised
      {
        var entry := queryHistory[i];
        if clicked == Some(i) {
          sqlQuery := Some(entry.1);
          var outcome := execute(entry.1);
          if outcome.Raised? {
            raised := true;
            return;
          }
          queryResults := Some(outcome.frame);
        }
        i := i + 1;
      }
    }

    /** Lines 109-200 as far as the session state goes: one run of `app_interface`,
        returning the run it performed. A failed submission returns before the results
        are drawn; an exception while drawing them or in a re-run is not caught (`raised`)
        and ends the run. */
    method AppInterface(submitted: bool, question: string, prompt: string, model: string -> string,
                        clicked: Option<nat>, displayRaises: bool, execute: string -> Execution)
      returns (run: Run, raised: bool)
      modifies this
      ensures run.submission == if submitted then Some((question, GenerateSqlFromText(question, prompt, model))) else None
      ensures run.clicked == clicked && run.displayRaises == displayRaises && run.database == execute
      ensures Snapshot() == InterfaceStep(old(Snapshot()), run)
      ensures queryHistory == old(queryHistory) + RecordedBy(run)
      ensures raised <==> (run.submission.None? || execute(run.submission.value.1).Returned?)
                          && (DisplayFails(if run.submission.Some? then Some(execute(run.submission.value.1).frame)
                                           else old(queryResults), displayRaises)
                              || (clicked.Some? && clicked.value < |queryHistory|
                                  && execute(queryHistory[clicked.value].1).Raised?))
    {
      raised := false;
      if submitted {
        var sql, failed := Submit(question, prompt, model, execute);
        run := Run(Some((question, sql)), clicked, displayRaises, execute);
        if failed {
          return;
        }
      } else {
        run := Run(None, clicked, displayRaises, execute);
      }
      if DisplayFails(queryResults, displayRaises) {
        raised := true;
        return;
      }
      raised := RerunFromHistory(clicked, execute);
    }
  }
}

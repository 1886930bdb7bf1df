/** The text-to-SQL step (`generate_sql_from_text` in app.py). The generative model is a
    parameter: a function from the text it is sent to the text it answers. Everything the
    step does with that answer is pure string work: strip, delete the Markdown code fences,
    strip again, and replace the whole query by one fixed query when it pairs `AVG(` with
    `WHERE` or `BETWEEN`. */
module SqlGeneration {
  import opened Text
  import opened FixedQuery

  /** Placed between the instructions and the user's question. */
  const QuestionMarker := "\nQuestion: "
  /** The opening fence of a Markdown SQL code block. */
  const SqlFence := "```sql"
  /** A bare Markdown code fence. */
  const Fence := "```"
  /** The text sent to the model: it opens with the instructions, then the question marker,
      and ends with the question. */
  function ModelInput(prompt: string, question: string): (input: string)
    ensures |input| == |prompt| + |QuestionMarker| + |question|
    ensures StartsWith(input, prompt)
    ensures input[|prompt|..|prompt| + |QuestionMarker|] == QuestionMarker
    ensures input[|input| - |question|..] == question
  {
    prompt + QuestionMarker + question
  }

  /** Lines 71-72: strip, delete every "```sql", then every "```", strip again. The result
      has no white space at either end and no fence left in it. */
  function StripFences(response: string): (sql: string)
    ensures IsStripped(sql)
    ensures !Contains(sql, Fence)
  {
    var bodyAndClose := RemoveAll(Strip(response), SqlFence);
    var unfenced := RemoveAll(bodyAndClose, Fence);
    FenceRemovalComplete(bodyAndClose);
    StripKeepsAbsent(unfenced, Fence);
    Strip(unfenced)
  }

  /** The condition of line 76: a case-sensitive substring test. */
  predicate NeedsAvgRewrite(sql: string) {
    Contains(sql, "AVG(") && (Contains(sql, "WHERE") || Contains(sql, "BETWEEN"))
  }

  /** Lines 71-83 applied to the model's answer. The rewrite takes priority over the
      cleaned text; otherwise the cleaned text is returned as it is. Either way the result
      is stripped and fence-free, and it matches the rewrite rule exactly when it is the
      fixed query. */
  function CleanResponse(response: string): (sql: string)
    ensures NeedsAvgRewrite(StripFences(response)) ==> sql == AvgRewrite()
    ensures !NeedsAvgRewrite(StripFences(response)) ==> sql == StripFences(response)
    ensures IsStripped(sql) && !Contains(sql, Fence)
    ensures NeedsAvgRewrite(sql) <==> sql == AvgRewrite()
  {
    AvgRewriteIsClean();
    var cleaned := StripFences(response);
    if NeedsAvgRewrite(cleaned) then AvgRewrite() else cleaned
  }

  /** `generate_sql_from_text(question, prompt)`: asks the model with `ModelInput` and cleans
      its answer. The query returned is stripped and fence-free; it matches the rewrite rule
      only if it is the fixed query, and when the model's answer matches the rule it is the
      fixed query, whatever the question was. */
  function GenerateSqlFromText(question: string, prompt: string, model: string -> string): (sql: string)
    ensures !Contains(sql, Fence) && IsStripped(sql)
    ensures NeedsAvgRewrite(sql) <==> sql == AvgRewrite()
    ensures NeedsAvgRewrite(StripFences(model(ModelInput(prompt, question)))) ==> sql == AvgRewrite()
    ensures !NeedsAvgRewrite(StripFences(model(ModelInput(prompt, question))))
            ==> sql == StripFences(model(ModelInput(prompt, question)))
  {
    CleanResponse(model(ModelInput(prompt, question)))
  }

  /** Deleting every "```" from left to right leaves no "```": within each run of
      backticks the scan deletes three at a time and leaves fewer than three, and runs are
      separated by characters that are never deleted. */
  lemma {:induction false} FenceRemovalComplete(s: string)
    ensures !Contains(RemoveAll(s, Fence), Fence)
    decreases |s|
  {
    if |s| < |Fence| {
      assert RemoveAll(s, Fence) == s;
    } else if StartsWith(s, Fence) {
      FenceRemovalComplete(s[|Fence|..]);
    } else {
      var rest := RemoveAll(s[1..], Fence);
      FenceRemovalComplete(s[1..]);
      RemoveAllKeepsHead(s, Fence);
      ContainsCons(s[0], rest, Fence);
      if s[0] == '`' {
        assert s[..3] == [s[0], s[1], s[2]];
        if s[1] != '`' {
          HeadSurvives(s[1..]);
        } else {
          assert s[2] != '`';
          assert !StartsWith(s[1..], Fence) by {
            if |s| >= 4 { assert s[1..][..3][1] == s[2]; }
          }
          RemoveAllKeepsHead(s[1..], Fence);
          assert s[1..][1..] == s[2..];
          HeadSurvives(s[2..]);
        }
      }
    }
  }

  /** A string that does not start with a backtick keeps its first character. */
  lemma HeadSurvives(s: string)
    requires |s| > 0 && s[0] != '`'
    ensures |RemoveAll(s, Fence)| > 0 && RemoveAll(s, Fence)[0] == s[0]
  {
    RemoveAllKeepsHead(s, Fence);
  }

  /** The fixed query is stripped, has no fence and matches its own rewrite rule. */
  lemma AvgRewriteIsClean()
    ensures IsStripped(AvgRewrite()) && !Contains(AvgRewrite(), Fence)
    ensures NeedsAvgRewrite(AvgRewrite())
    ensures Contains(AvgRewrite(), "BETWEEN")
  {
    AvgRewriteHasNoBacktick();
    AbsentFirstChar(AvgRewrite(), Fence);
    AvgRewriteHasAvg();
    AvgRewriteHasWhere();
    AvgRewriteHasBetween();
  }

  lemma AvgRewriteHasAvg()
    ensures Contains(AvgRewrite(), "AVG(")
  {
    assert OccursAt(AvgSelect, "AVG(", 8);
    ContainsAppend(AvgWith, AvgSelect, "AVG(");
    ContainsAppend(AvgWith + AvgSelect, AvgFrom, "AVG(");
    ContainsAppend(AvgWith + AvgSelect + AvgFrom, AvgJoin, "AVG(");
    ContainsAppend(AvgWith + AvgSelect + AvgFrom + AvgJoin, AvgWhere, "AVG(");
    ContainsAppend(AvgWith + AvgSelect + AvgFrom + AvgJoin + AvgWhere, AvgLow, "AVG(");
    ContainsAppend(AvgWith + AvgSelect + AvgFrom + AvgJoin + AvgWhere + AvgLow, AvgHigh, "AVG(");
  }

  lemma AvgRewriteHasWhere()
    ensures Contains(AvgRewrite(), "WHERE")
  {
    assert OccursAt(AvgWhere, "WHERE", 0);
    ContainsAppend(AvgWith + AvgSelect + AvgFrom + AvgJoin, AvgWhere, "WHERE");
    ContainsAppend(AvgWith + AvgSelect + AvgFrom + AvgJoin + AvgWhere, AvgLow, "WHERE");
    ContainsAppend(AvgWith + AvgSelect + AvgFrom + AvgJoin + AvgWhere + AvgLow, AvgHigh, "WHERE");
  }

  lemma AvgRewriteHasBetween()
    ensures Contains(AvgRewrite(), "BETWEEN")
  {
    assert OccursAt(AvgWhere, "BETWEEN", 20);
    ContainsAppend(AvgWith + AvgSelect + AvgFrom + AvgJoin, AvgWhere, "BETWEEN");
    ContainsAppend(AvgWith + AvgSelect + AvgFrom + AvgJoin + AvgWhere, AvgLow, "BETWEEN");
    ContainsAppend(AvgWith + AvgSelect + AvgFrom + AvgJoin + AvgWhere + AvgLow, AvgHigh, "BETWEEN");
  }

  /** A stripped, fence-free query goes through the fence removal unchanged. */
  lemma StripFencesKeepsClean(sql: string)
    requires IsStripped(sql) && !Contains(sql, Fence)
    ensures StripFences(sql) == sql
  {
    StripKeepsStripped(sql);
    NoSqlFenceWithoutFence(sql);
    RemoveAllAbsent(sql, SqlFence);
    assert RemoveAll(Strip(sql), SqlFence) == sql;
    RemoveAllAbsent(sql, Fence);
  }

  /** A string without "```" has no "```sql" either. */
  lemma NoSqlFenceWithoutFence(sql: string)
    requires !Contains(sql, Fence)
    ensures !Contains(sql, SqlFence)
  {
    if Contains(sql, SqlFence) {
      assert SqlFence == Fence + "sql";
      ContainsLonger(sql, Fence, "sql");
    }
  }

  /** Every query the cleaning produces is left alone by a second cleaning. */
  lemma CleanIsFixedPoint(sql: string)
    requires IsStripped(sql) && !Contains(sql, Fence)
    requires NeedsAvgRewrite(sql) ==> sql == AvgRewrite()
    ensures CleanResponse(sql) == sql
  {
    StripFencesKeepsClean(sql);
  }

  /** The post-processing is idempotent. */
  lemma CleanIdempotent(response: string)
    ensures CleanResponse(CleanResponse(response)) == CleanResponse(response)
  {
    CleanIsFixedPoint(CleanResponse(response));
  }

  /** A generated query goes through the post-processing again unchanged. */
  lemma GeneratedSqlIsFixedPoint(question: string, prompt: string, model: string -> string)
    ensures var sql := GenerateSqlFromText(question, prompt, model); CleanResponse(sql) == sql
  {
    CleanIsFixedPoint(GenerateSqlFromText(question, prompt, model));
  }

  /** The usual shape of a model answer, a Markdown SQL block, is unwrapped to the query
      inside it, provided that query has no fence and no white space at its ends. */
  lemma FencedAnswerUnwrapped(query: string)
    requires IsStripped(query) && !Contains(query, Fence)
    ensures StripFences(SqlFence + "\n" + query + "\n" + Fence) == query
    ensures CleanResponse(SqlFence + "\n" + query + "\n" + Fence)
         == if NeedsAvgRewrite(query) then AvgRewrite() else query
  {
    var answer := SqlFence + "\n" + query + "\n" + Fence;
    assert answer[0] == '`' && answer[|answer| - 1] == '`';
    StripKeepsStripped(answer);
    OpeningFenceRemoved(query);
    ClosingFenceRemoved(query);
    StripPadded(query, '\n', '\n');
  }

  /** The first pass, deleting "```sql", takes out the opening fence and nothing else. */
  lemma OpeningFenceRemoved(query: string)
    requires !Contains(query, Fence)
    ensures RemoveAll(SqlFence + "\n" + query + "\n" + Fence, SqlFence) == "\n" + query + "\n" + Fence
  {
    assert SqlFence + "\n" + query + "\n" + Fence == (SqlFence + "\n" + query) + ['\n'] + Fence;
    RemoveAllSplit(SqlFence + "\n" + query, '\n', Fence, SqlFence);
    assert SqlFence + "\n" + query == SqlFence + ['\n'] + query;
    RemoveAllSplit(SqlFence, '\n', query, SqlFence);
    RemoveAllSelf(SqlFence);
    NoSqlFenceWithoutFence(query);
    RemoveAllAbsent(query, SqlFence);
    assert RemoveAll(Fence, SqlFence) == Fence;
  }

  /** The second pass, deleting "```", takes out the closing fence and nothing else. */
  lemma ClosingFenceRemoved(query: string)
    requires !Contains(query, Fence)
    ensures RemoveAll("\n" + query + "\n" + Fence, Fence) == ['\n'] + query + ['\n']
  {
    assert "\n" + query + "\n" + Fence == ("\n" + query) + ['\n'] + Fence;
    RemoveAllSplit("\n" + query, '\n', Fence, Fence);
    assert "\n" + query == [] + ['\n'] + query;
    RemoveAllSplit([], '\n', query, Fence);
    RemoveAllAbsent(query, Fence);
    RemoveAllSelf(Fence);
  }

  /** The rule is case-sensitive: a fence-free query without the upper-case `AVG(` is
      returned as the model wrote it, whatever else it contains. */
  lemma LowerCaseAvgKept(query: string)
    requires IsStripped(query) && !Contains(query, Fence)
    requires !Contains(query, "AVG(")
    ensures CleanResponse(SqlFence + "\n" + query + "\n" + Fence) == query
  {
    FencedAnswerUnwrapped(query);
  }

  /** The keywords are case-sensitive too: a fence-free query with neither upper-case
      `WHERE` nor upper-case `BETWEEN` is returned as the model wrote it, even when it
      holds `AVG(`. */
  lemma LowerCaseFiltersKept(query: string)
    requires IsStripped(query) && !Contains(query, Fence)
    requires !Contains(query, "WHERE") && !Contains(query, "BETWEEN")
    ensures CleanResponse(SqlFence + "\n" + query + "\n" + Fence) == query
  {
    FencedAnswerUnwrapped(query);
  }

  /** For instance, an upper-case `AVG(` filtered with `where` and `between` written in
      lower case does not trigger the rewrite. */
  lemma LowerCaseKeywordsKept()
    ensures var query := "SELECT AVG(MATH_SCORE) " + "FROM STUDENT where " + "READING_SCORE between 60 and 70";
      CleanResponse(SqlFence + "\n" + query + "\n" + Fence) == query
  {
    var select: string, from: string, filter: string
      := "SELECT AVG(MATH_SCORE) ", "FROM STUDENT where ", "READING_SCORE between 60 and 70";
    var query := select + from + filter;
    LowerCasePiecesLackBacktick();
    LowerCasePiecesLackUpperW();
    LowerCasePiecesLackUpperB();
    assert '`' !in query && 'W' !in query && 'B' !in query;
    assert query[0] == select[0] && query[|query| - 1] == filter[|filter| - 1];
    AbsentFirstChar(query, Fence);
    AbsentFirstChar(query, "WHERE");
    AbsentFirstChar(query, "BETWEEN");
    LowerCaseFiltersKept(query);
  }

  lemma LowerCasePiecesLackBacktick()
    ensures '`' !in "SELECT AVG(MATH_SCORE) " && '`' !in "FROM STUDENT where "
    ensures '`' !in "READING_SCORE between 60 and 70"
  {
  }

  lemma LowerCasePiecesLackUpperW()
    ensures 'W' !in "SELECT AVG(MATH_SCORE) " && 'W' !in "FROM STUDENT where "
    ensures 'W' !in "READING_SCORE between 60 and 70"
  {
  }

  lemma LowerCasePiecesLackUpperB()
    ensures 'B' !in "SELECT AVG(MATH_SCORE) " && 'B' !in "FROM STUDENT where "
    ensures 'B' !in "READING_SCORE between 60 and 70"
  {
  }

  /** The rule looks for `AVG(` and `WHERE` anywhere in the query, not for an aggregate
      inside the WHERE clause: the answer the instructions themselves give for "Find the
      average math score of male students" is thrown away and the fixed query is run in
      its place. */
  lemma AvgWithPlainFilterReplaced()
    ensures var query := "SELECT AVG(MATH_SCORE) " + "AS avg_math_score FROM STUDENT " + "WHERE GENDER = 'male';";
      CleanResponse(SqlFence + "\n" + query + "\n" + Fence) == AvgRewrite()
  {
    var query := "SELECT AVG(MATH_SCORE) " + "AS avg_math_score FROM STUDENT " + "WHERE GENDER = 'male';";
    ExampleAnswerMatchesRule();
    FencedAnswerUnwrapped(query);
  }

  /** The example answer is clean and matches the rewrite rule. */
  lemma ExampleAnswerMatchesRule()
    ensures var query := "SELECT AVG(MATH_SCORE) " + "AS avg_math_score FROM STUDENT " + "WHERE GENDER = 'male';";
      IsStripped(query) && !Contains(query, Fence) && NeedsAvgRewrite(query)
  {
    var select: string, from: string, filter: string
      := "SELECT AVG(MATH_SCORE) ", "AS avg_math_score FROM STUDENT ", "WHERE GENDER = 'male';";
    var query := select + from + filter;
    ExamplePiecesHaveNoBacktick();
    assert '`' !in query;
    assert query[0] == select[0] && query[|query| - 1] == filter[|filter| - 1];
    AbsentFirstChar(query, Fence);
    ExampleAnswerHasKeywords(select, from, filter);
  }

  lemma ExamplePiecesHaveNoBacktick()
    ensures '`' !in "SELECT AVG(MATH_SCORE) " && '`' !in "AS avg_math_score FROM STUDENT "
    ensures '`' !in "WHERE GENDER = 'male';"
  {
  }

  lemma ExampleAnswerHasKeywords(select: string, from: string, filter: string)
    requires select == "SELECT AVG(MATH_SCORE) " && filter == "WHERE GENDER = 'male';"
    ensures Contains(select + from + filter, "AVG(") && Contains(select + from + filter, "WHERE")
  {
    assert OccursAt(select, "AVG(", 7);
    ContainsAppend(select, from, "AVG(");
    ContainsAppend(select + from, filter, "AVG(");
    assert OccursAt(filter, "WHERE", 0);
    ContainsAppend(select + from, filter, "WHERE");
  }
}

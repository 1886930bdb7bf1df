/** The fixed query that app.py (lines 78-81) runs in place of any answer matching its
    `AVG(` rule: the literal, clause by clause, and the character facts the cleaning
    relies on (no backtick, its first and last characters). */
module FixedQuery {

  /** The query that replaces every answer matching the `AVG(` rewrite rule: the
      189-character literal of lines 79-80, clause by clause. */
  function AvgRewrite(): (q: string)
    ensures |q| == 189
  {
    AvgWith + AvgSelect + AvgFrom + AvgJoin + AvgWhere + AvgLow + AvgHigh
  }
  // the pieces of the fixed query, clause by clause
  const AvgWith: string := "WITH avg_calculation AS "
  const AvgSelect: string := "(SELECT AVG(MATH_SCORE) "
  const AvgFrom: string := "AS avg_math_score FROM STUDENT) "
  const AvgJoin: string := "SELECT * FROM STUDENT, avg_calculation "
  const AvgWhere: string := "WHERE READING_SCORE BETWEEN "
  const AvgLow: string := "avg_math_score - 5 AND "
  const AvgHigh: string := "avg_math_score + 5;"

  /** No clause of the fixed query holds a backtick. */
  lemma ClausesHaveNoBacktick()
    ensures '`' !in AvgWith && '`' !in AvgSelect && '`' !in AvgFrom && '`' !in AvgJoin
    ensures '`' !in AvgWhere && '`' !in AvgLow && '`' !in AvgHigh
  {
    SelectClausesHaveNoBacktick();
  }

  lemma SelectClausesHaveNoBacktick()
    ensures '`' !in AvgWith && '`' !in AvgSelect && '`' !in AvgFrom && '`' !in AvgJoin
  {
    OpeningClausesHaveNoBacktick();
  }

  lemma OpeningClausesHaveNoBacktick()
    ensures '`' !in AvgWith && '`' !in AvgSelect
  {
  }

  /** The fixed query holds no backtick and starts and ends with a visible character. */
  lemma AvgRewriteHasNoBacktick()
    ensures '`' !in AvgRewrite()
    ensures AvgRewrite()[0] == 'W' && AvgRewrite()[|AvgRewrite()| - 1] == ';'
  {
    ClausesHaveNoBacktick();
    var front := AvgWith + AvgSelect + AvgFrom + AvgJoin;
    assert '`' !in front;
    assert '`' !in front + AvgWhere + AvgLow + AvgHigh;
    assert AvgRewrite()[0] == AvgWith[0];
    assert AvgRewrite()[|AvgRewrite()| - 1] == AvgHigh[|AvgHigh| - 1];
  }
}

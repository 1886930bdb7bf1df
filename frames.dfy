/** The tables that queries return and charts are drawn from, and the SQL executor, kept
    abstract: the SQLite engine itself is not part of this model. */
module Frames {

  /** A pandas DataFrame seen through what the application inspects: its number of rows
      and the dtype name of each column (`"object"`, `"int64"`, ...), in column order. */
  datatype Frame = Frame(rows: nat, dtypes: seq<string>) {
    /** `shape[1]`. */
    function ColumnCount(): nat { |dtypes| }
  }

  /** `pd.DataFrame()`: no rows and no columns. */
  const EmptyFrame := Frame(0, [])

  /** What running one query against the database does: return a table or raise. */
  datatype Execution = Returned(frame: Frame) | Raised(message: string)

  /** `execute_sql_query` in sql.py: it hands the query to the engine and catches every
      exception, answering an empty table instead, so it never raises. */
  function ExecuteSqlQuery(engine: string -> Execution, query: string): (e: Execution)
    ensures e.Returned?
    ensures engine(query).Returned? ==> e == engine(query)
    ensures engine(query).Raised? ==> e.frame == EmptyFrame
  {
    match engine(query)
    case Returned(frame) => Returned(frame)
    case Raised(_) => Returned(EmptyFrame)
  }
}

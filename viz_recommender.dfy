/** `VisualizationRecommender.recommend` (modules/viz_recommender.py): a fixed rule table
    from the shape of a result table to the name of a chart. */
module VizRecommender {
  import opened Frames

  const Histogram := "Histogram"
  const BarChart := "Bar Chart"
  const ScatterPlot := "Scatter Plot"
  const Heatmap := "Heatmap"
  const Table := "Table"

  /** The chart for a table, decided by its column count and, for two columns, by whether
      the second column holds Python objects (strings, as pandas stores them). Each label
      belongs to exactly one case, so the contract reads both ways. */
  function Recommend(data: Frame): (chart: string)
    ensures chart in {Histogram, BarChart, ScatterPlot, Heatmap, Table}
    ensures chart == Histogram <==> data.ColumnCount() == 1
    ensures chart == BarChart <==> data.ColumnCount() == 2 && data.dtypes[1] == "object"
    ensures chart == ScatterPlot <==> data.ColumnCount() == 2 && data.dtypes[1] != "object"
    ensures chart == Heatmap <==> data.ColumnCount() > 2
    ensures chart == Table <==> data.ColumnCount() == 0
  {
    if data.ColumnCount() == 1 then Histogram
    else if data.ColumnCount() == 2 then (if data.dtypes[1] == "object" then BarChart else ScatterPlot)
    else if data.ColumnCount() > 2 then Heatmap
    else Table
  }

  /** The row count plays no part, and neither do the dtypes of any column but the
      second. */
  lemma RecommendReadsOnlyShapeAndSecondDtype(a: Frame, b: Frame)
    requires a.ColumnCount() == b.ColumnCount()
    requires a.ColumnCount() == 2 ==> a.dtypes[1] == b.dtypes[1]
    ensures Recommend(a) == Recommend(b)
  {
  }
}

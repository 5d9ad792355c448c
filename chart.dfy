/** `TimeSeriesChartLoader`: the description of the chart drawn for a currency pair. */
module ChartLoading {
  import opened Wrappers
  import opened Model
  import opened Text

  /** `load(from, to)`: titled `FROM/TO`, the x axis labelled "Date" and the y axis "Rate". Total and without effects. */
  function Load(from: Currency, to: Currency): (chart: TimeSeriesChart)
    ensures chart.xAxisLabel == "Date" && chart.yAxisLabel == "Rate"
    ensures |chart.title| == |from.code| + 1 + |to.code|
  {
    TimeSeriesChart(from.code + "/" + to.code, "Date", "Rate")
  }

  /** The chart depends on the two codes only: the names play no part. */
  lemma LoadSeesOnlyCodes(a: Currency, b: Currency, c: Currency, d: Currency)
    requires a.code == c.code && b.code == d.code
    ensures Load(a, b) == Load(c, d)
  {
  }

  /** When the source code has no slash, the title splits back into the two codes. */
  lemma TitleRoundTrip(from: Currency, to: Currency)
    requires '/' !in from.code
    ensures SplitAt(Load(from, to).title, '/') == Some((from.code, to.code))
  {
    SplitAtJoin(from.code, to.code, '/');
  }

  /** Pairs whose source codes have no slash get the same title only when both codes agree. */
  lemma TitleIdentifiesPair(a: Currency, b: Currency, c: Currency, d: Currency)
    requires '/' !in a.code && '/' !in c.code
    requires Load(a, b).title == Load(c, d).title
    ensures a.code == c.code && b.code == d.code
  {
    TitleRoundTrip(a, b);
    TitleRoundTrip(c, d);
  }
}

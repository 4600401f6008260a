/**
 * The chart projections: a count dictionary becomes the chart's `labels` (its keys) and one
 * dataset's `data` (its values), in the dictionary's iteration order, with a colour list.
 */
module Chart {
  import opened Wrappers
  import opened Counting

  datatype ChartData = ChartData(labels: seq<string>, data: seq<nat>, backgroundColor: seq<string>)

  /** The single colour of every bar of the skills chart. */
  const BarColour: string := "rgba(75,85,192,0.6)"

  /** The fixed five-colour palette of the months chart. */
  const PieColours: seq<string> := [
    "rgba(153, 188, 87, 1)",
    "rgba(237, 153, 91, 1)",
    "rgba(244, 207, 121, 1)",
    "rgba(95, 183, 212, 1)",
    "rgba(232, 226, 214, 1)"
  ]

  /** Keys as labels, values as data, both in the dictionary's order. */
  function ChartOf(t: seq<Entry<string>>, colours: seq<string>): ChartData {
    ChartData(Keys(t), Counts(t), colours)
  }

  /** The bar chart of employees per technical skill. */
  function BarChartData(employeeTechnicalData: seq<Entry<string>>): ChartData {
    ChartOf(employeeTechnicalData, [BarColour])
  }

  /** The pie chart of projects per month. */
  function PieChartData(projectsByMonth: seq<Entry<string>>): ChartData {
    ChartOf(projectsByMonth, PieColours)
  }

  /** The colour of the i-th bar or slice: the list of colours is reused from its start once exhausted. */
  function SegmentColour(chart: ChartData, i: nat): (colour: string)
    requires |chart.backgroundColor| > 0
    ensures colour in chart.backgroundColor
  {
    chart.backgroundColor[i % |chart.backgroundColor|]
  }

  /**
   * `labels` and `data` are parallel: they have the dictionary's length, `data[i]` is the count
   * stored under `labels[i]` (at least 1), and the labels are exactly the dictionary's keys, once each.
   */
  lemma ChartParallel(t: seq<Entry<string>>, colours: seq<string>)
    requires WellFormed(t)
    ensures var chart := ChartOf(t, colours);
      && |chart.labels| == |chart.data| == |t|
      && Distinct(chart.labels)
      && (forall i :: 0 <= i < |chart.labels| ==> Lookup(t, chart.labels[i]) == Some(chart.data[i]))
      && (forall i :: 0 <= i < |chart.data| ==> chart.data[i] >= 1)
      && (forall k :: Lookup(t, k).Some? <==> k in chart.labels)
  {
    forall i | 0 <= i < |t| ensures Lookup(t, t[i].key) == Some(t[i].count) {
      IndexOfUnique(t, t[i].key, i);
    }
  }

  /** Projected from the count of a key sequence, each label is a key and its datum that key's number of occurrences. */
  lemma ChartOfTally(s: seq<string>, colours: seq<string>)
    ensures var chart := ChartOf(Tally(s), colours);
      && chart.labels == FirstOccurrences(s)
      && |chart.data| == |chart.labels|
      && (forall i :: 0 <= i < |chart.labels| ==> chart.data[i] == CountOf(chart.labels[i], s) >= 1)
  {
    TallyMeaning(s, if s == [] then "" else s[0]);
  }

  /**
   * Slices `i` and `i + 1` of the months chart never share a colour; slices five apart always do.
   * This says nothing about the last and the first slice, which touch on the pie: see `PieColoursWrap`.
   */
  lemma PieColoursCycle(projectsByMonth: seq<Entry<string>>, i: nat)
    ensures var chart := PieChartData(projectsByMonth);
      && SegmentColour(chart, i) != SegmentColour(chart, i + 1)
      && SegmentColour(chart, i) == SegmentColour(chart, i + 5)
  {
    var chart := PieChartData(projectsByMonth);
    assert (i + 5) % 5 == i % 5;
    assert (i + 1) % 5 == if i % 5 == 4 then 0 else i % 5 + 1;
  }

  /**
   * With six slices (or any count one above a multiple of five), the last slice reuses the
   * first colour, so the two slices that meet where the pie closes share a colour.
   */
  lemma PieColoursWrap(projectsByMonth: seq<Entry<string>>)
    requires |projectsByMonth| > 1 && |projectsByMonth| % 5 == 1
    ensures var chart := PieChartData(projectsByMonth);
      SegmentColour(chart, |projectsByMonth| - 1) == SegmentColour(chart, 0)
  {
    assert (|projectsByMonth| - 1) % 5 == 0;
  }
}

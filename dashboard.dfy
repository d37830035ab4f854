/** The two queries the dashboard's controls drive: the chart of one metric
    against one dimension (`update_charts`) and the four summary cards
    (`update_metrics`), each over the records of the selected group dated
    within the selected range, or for groups A and B side by side. */
module Dashboard {
  import opened Table
  import opened Load
  import opened Metrics

  /** The options of the group selector: 'A', 'B', 'A AND B' ('+') and 'A VS B' ('v'). */
  datatype Selection = GroupA | GroupB | Combined | Versus

  /** `dataframes[test_group]` for a selection other than versus. */
  function GroupTable(store: Store, sel: Selection): (s: seq<Record>)
    requires sel != Versus
    ensures IsStore(store) ==> forall x :: x in s ==> x in store.combined
    ensures IsStore(store) && sel == GroupA ==> forall x :: x in s ==> x.testGroup == "A"
    ensures IsStore(store) && sel == GroupB ==> forall x :: x in s ==> x.testGroup == "B"
  {
    match sel
    case GroupA => store.a
    case GroupB => store.b
    case Combined => store.combined
  }

  /** `data.loc[(date >= start_date) & (date <= end_date)]`: the records dated
      within the range, both ends included, in their order in s. */
  function DateFilter(s: seq<Record>, start: int, end: int): (r: seq<Record>)
    ensures |r| <= |s|
    ensures forall x :: x in r <==> x in s && start <= x.transactionDate <= end
  {
    Select(s, InDateRange(start, end))
  }

  /** The date filter keeps each record dated within the range as often as s holds it. */
  lemma DateFilterCount(s: seq<Record>, start: int, end: int)
    ensures forall x :: multiset(DateFilter(s, start, end))[x]
                     == if start <= x.transactionDate <= end then multiset(s)[x] else 0
  {
    SelectCount(s, InDateRange(start, end));
  }

  /** The date filter keeps an order-preserving sub-sequence of its input, so
      a table sorted by date stays sorted. */
  lemma DateFilterKeepsOrder(s: seq<Record>, start: int, end: int)
    ensures IsSubsequence(DateFilter(s, start, end), s)
    ensures SortedByDate(s) ==> SortedByDate(DateFilter(s, start, end))
  {
    SelectIsSubsequence(s, InDateRange(start, end));
    if SortedByDate(s) {
      SelectPreservesSorted(s, InDateRange(start, end));
    }
  }

  /** The four figures of the summary cards. The conversion rate of an empty
      selection is a division of zero by zero, NaN in the source: None here. */
  datatype Summary = Summary(
    conversion: Option<real>,
    totalPrice: real,
    netProfit: real,
    grossProfit: real)

  function Summarize(s: seq<Record>): (r: Summary)
    ensures r.conversion.None? <==> s == []
    ensures r.conversion.Some? ==> r.conversion.value * (|s| as real) == SumOf(s, SaleIndicator)
    ensures r.grossProfit == r.netProfit - SumOf(s, Tax)
  {
    Summary(
      if s == [] then None else Some(SumOf(s, SaleIndicator) / (|s| as real)),
      SumOf(s, TotalPrice),
      SumOf(s, Profit),
      SumOf(s, Profit) - SumOf(s, Tax))
  }

  /** The summary of a selection agrees with the totals of its chart table,
      whatever the dimension: total price, net and gross profit are the
      column totals. */
  lemma SummaryMatchesTable(s: seq<Record>, dim: Dimension, rows: seq<Row>)
    requires IsMetricsTable(s, dim, rows)
    ensures Summarize(s).totalPrice == ColumnTotal(rows, TotalPrice)
    ensures Summarize(s).netProfit == ColumnTotal(rows, Profit)
    ensures Summarize(s).grossProfit == GrossTotal(rows)
  {
    TableColumnTotal(s, dim, rows, TotalPrice);
    TableColumnTotal(s, dim, rows, Profit);
    TableColumnTotal(s, dim, rows, Tax);
    GrossTotalSplit(rows);
  }

  /** The conversion rate of a selection is the sales total of its chart
      table over the table's frequency total. */
  lemma ConversionMatchesTable(s: seq<Record>, dim: Dimension, rows: seq<Row>)
    requires IsMetricsTable(s, dim, rows)
    ensures Summarize(s).conversion
         == if ColumnTotal(rows, Frequency) == 0.0 then None
            else Some(ColumnTotal(rows, SaleIndicator) / ColumnTotal(rows, Frequency))
  {
    TableColumnTotal(s, dim, rows, Frequency);
    TableColumnTotal(s, dim, rows, SaleIndicator);
    assert ColumnTotal(rows, Frequency) == |s| as real;
  }

  /** `update_metrics`: one summary for a single group, or the summaries of
      A and then B, each over the same date range, for versus. */
  function UpdateMetrics(store: Store, sel: Selection, start: int, end: int): (cards: seq<Summary>)
    ensures |cards| == if sel == Versus then 2 else 1
  {
    if sel == Versus then
      [Summarize(DateFilter(store.a, start, end)), Summarize(DateFilter(store.b, start, end))]
    else
      [Summarize(DateFilter(GroupTable(store, sel), start, end))]
  }

  /** Versus mode is exactly the two single-group summaries, with no combined figure. */
  lemma VersusIsIndependent(store: Store, start: int, end: int)
    ensures UpdateMetrics(store, Versus, start, end)
         == UpdateMetrics(store, GroupA, start, end) + UpdateMetrics(store, GroupB, start, end)
  {
  }

  /** Every record carries one of the two test-group tags. */
  predicate AllTagged(s: seq<Record>)
  {
    forall x :: x in s ==> x.testGroup == "A" || x.testGroup == "B"
  }

  /** Each view keeps the table's order, and so its sortedness by date, and
      holds every record of its group as often as the table does. */
  lemma GroupViewsKeepOrder(store: Store)
    requires IsStore(store)
    ensures IsSubsequence(store.a, store.combined) && IsSubsequence(store.b, store.combined)
    ensures SortedByDate(store.combined) ==> SortedByDate(store.a) && SortedByDate(store.b)
    ensures forall x :: multiset(store.a)[x] == if x.testGroup == "A" then multiset(store.combined)[x] else 0
    ensures forall x :: multiset(store.b)[x] == if x.testGroup == "B" then multiset(store.combined)[x] else 0
  {
    SelectIsSubsequence(store.combined, InGroup("A"));
    SelectIsSubsequence(store.combined, InGroup("B"));
    SelectCount(store.combined, InGroup("A"));
    SelectCount(store.combined, InGroup("B"));
    if SortedByDate(store.combined) {
      SelectPreservesSorted(store.combined, InGroup("A"));
      SelectPreservesSorted(store.combined, InGroup("B"));
    }
  }

  /** When every record is tagged A or B, the two views split the table:
      together they hold each record exactly once. */
  lemma GroupViewsPartition(store: Store)
    requires IsStore(store) && AllTagged(store.combined)
    ensures multiset(store.a) + multiset(store.b) == multiset(store.combined)
    ensures |store.a| + |store.b| == |store.combined|
  {
    SelectPartition(store.combined, InGroup("A"), InGroup("B"));
  }

  /** Restricting a view to a date range is restricting the whole table and
      then taking the view. */
  lemma DateFilterOfView(store: Store, start: int, end: int)
    requires IsStore(store)
    ensures DateFilter(store.a, start, end) == Select(DateFilter(store.combined, start, end), InGroup("A"))
    ensures DateFilter(store.b, start, end) == Select(DateFilter(store.combined, start, end), InGroup("B"))
  {
    SelectCommutes(store.combined, InGroup("A"), InDateRange(start, end));
    SelectCommutes(store.combined, InGroup("B"), InDateRange(start, end));
  }

  /** Group-union law over a date range: every measure summed over the
      combined table is its sum over A plus its sum over B. */
  lemma FilteredSumsAdd(store: Store, start: int, end: int, m: Measure)
    requires IsStore(store) && AllTagged(store.combined)
    ensures SumOf(DateFilter(store.combined, start, end), m)
         == SumOf(DateFilter(store.a, start, end), m) + SumOf(DateFilter(store.b, start, end), m)
  {
    var f := DateFilter(store.combined, start, end);
    DateFilterOfView(store, start, end);
    SumPartition(f, InGroup("A"), InGroup("B"), m);
  }

  /** The combined ('+') summary cards are the sums of the cards of A and B,
      and its record count is theirs added. */
  lemma CombinedSummaryIsSum(store: Store, start: int, end: int)
    requires IsStore(store) && AllTagged(store.combined)
    ensures var c := UpdateMetrics(store, Combined, start, end)[0];
            var a := UpdateMetrics(store, GroupA, start, end)[0];
            var b := UpdateMetrics(store, GroupB, start, end)[0];
            && c.totalPrice == a.totalPrice + b.totalPrice
            && c.netProfit == a.netProfit + b.netProfit
            && c.grossProfit == a.grossProfit + b.grossProfit
    ensures |DateFilter(store.combined, start, end)|
         == |DateFilter(store.a, start, end)| + |DateFilter(store.b, start, end)|
  {
    FilteredSumsAdd(store, start, end, TotalPrice);
    FilteredSumsAdd(store, start, end, Profit);
    FilteredSumsAdd(store, start, end, Tax);
    DateFilterOfView(store, start, end);
    SelectPartition(DateFilter(store.combined, start, end), InGroup("A"), InGroup("B"));
  }

  /** `update_charts`: the metrics table of the selected group over the date
      range, or one table for A and one for B, over the same range, for versus. */
  method UpdateCharts(store: Store, sel: Selection, dim: Dimension, start: int, end: int)
    returns (traces: seq<seq<Row>>)
    ensures sel == Versus ==>
              && |traces| == 2
              && IsMetricsTable(DateFilter(store.a, start, end), dim, traces[0])
              && IsMetricsTable(DateFilter(store.b, start, end), dim, traces[1])
    ensures sel != Versus ==>
              |traces| == 1 && IsMetricsTable(DateFilter(GroupTable(store, sel), start, end), dim, traces[0])
  {
    if sel != Versus {
      var data := GroupTable(store, sel);
      var filtered := DateFilter(data, start, end);
      var overall := CalculateMetrics(filtered, dim);
      traces := [overall];
    } else {
      var filteredA := DateFilter(store.a, start, end);
      var filteredB := DateFilter(store.b, start, end);
      var metricsA := CalculateMetrics(filteredA, dim);
      var metricsB := CalculateMetrics(filteredB, dim);
      traces := [metricsA, metricsB];
    }
  }

  /** Group-union law for the charts: for the same dimension and date range,
      every column total of the combined table is the A total plus the B total;
      in particular the frequencies of '+' add up to those of A and B. */
  lemma ChartTotalsAdd(store: Store, dim: Dimension, start: int, end: int,
                       combined: seq<Row>, a: seq<Row>, b: seq<Row>, m: Measure)
    requires IsStore(store) && AllTagged(store.combined)
    requires IsMetricsTable(DateFilter(store.combined, start, end), dim, combined)
    requires IsMetricsTable(DateFilter(store.a, start, end), dim, a)
    requires IsMetricsTable(DateFilter(store.b, start, end), dim, b)
    ensures ColumnTotal(combined, m) == ColumnTotal(a, m) + ColumnTotal(b, m)
    ensures GrossTotal(combined) == GrossTotal(a) + GrossTotal(b)
  {
    TableColumnTotal(DateFilter(store.combined, start, end), dim, combined, m);
    TableColumnTotal(DateFilter(store.a, start, end), dim, a, m);
    TableColumnTotal(DateFilter(store.b, start, end), dim, b, m);
    FilteredSumsAdd(store, start, end, m);
    MetricsTotals(DateFilter(store.combined, start, end), dim, combined);
    MetricsTotals(DateFilter(store.a, start, end), dim, a);
    MetricsTotals(DateFilter(store.b, start, end), dim, b);
    FilteredSumsAdd(store, start, end, Profit);
    FilteredSumsAdd(store, start, end, Tax);
  }

  /** Two group-A quotes for customers aged 30, on days 0 and 1: a sale
      (price 100, profit 20, tax 5) and a quote that did not sell (price 50,
      profit -5, tax 0). */
  const SaleAt30 := Record(0, "A", 1.0, 100.0, 20.0, 5.0, 40.0, 2.0, 30.0, 9000.0, 10000.0)
  const NoSaleAt30 := Record(1, "A", 0.0, 50.0, -5.0, 0.0, 30.0, 1.5, 30.0, 8000.0, 20000.0)

  /** A store holding the two quotes in '+' and in the A view, and nothing in the B view. */
  const AgeStore := Store([SaleAt30, NoSaleAt30], [SaleAt30, NoSaleAt30], [])

  /** A mask over a table of two records. */
  lemma SelectTwo(x: Record, y: Record, m: Mask)
    ensures Select([x, y], m) == (if Holds(m, x) then [x] else []) + (if Holds(m, y) then [y] else [])
  {
    SelectAppend([], x, m);
    SelectAppend([x], y, m);
    assert [x] + [y] == [x, y];
  }

  /** A column sum over a table of two records. */
  lemma SumOfTwo(x: Record, y: Record, m: Measure)
    ensures SumOf([x, y], m) == Weight(x, m) + Weight(y, m)
  {
    SumOfAppend([], x, m);
    SumOfAppend([x], y, m);
    assert [x] + [y] == [x, y];
  }

  /** The group of age 30 is both quotes, and its row holds their sums. */
  lemma AgeScenarioRow()
    ensures RowFor([SaleAt30, NoSaleAt30], CustomerAge, 30.0) == Row(30.0, 2, 1.0, 15.0, 10.0, 150.0)
  {
    var data := [SaleAt30, NoSaleAt30];
    SelectTwo(SaleAt30, NoSaleAt30, HasValue(CustomerAge, 30.0));
    assert Group(data, CustomerAge, 30.0) == data;
    SumOfTwo(SaleAt30, NoSaleAt30, SaleIndicator);
    SumOfTwo(SaleAt30, NoSaleAt30, Profit);
    SumOfTwo(SaleAt30, NoSaleAt30, Tax);
    SumOfTwo(SaleAt30, NoSaleAt30, TotalPrice);
    assert SumOf(data, SaleIndicator) == 1.0 && SumOf(data, Profit) == 15.0;
    assert SumOf(data, Tax) == 5.0 && SumOf(data, TotalPrice) == 150.0;
  }

  /** The chart table by customer age of the two quotes. */
  lemma AgeScenarioTable(rows: seq<Row>)
    requires IsMetricsTable([SaleAt30, NoSaleAt30], CustomerAge, rows)
    ensures rows == [Row(30.0, 2, 1.0, 15.0, 10.0, 150.0)]
  {
    var data := [SaleAt30, NoSaleAt30];
    var expected := [Row(30.0, 2, 1.0, 15.0, 10.0, 150.0)];
    AgeScenarioRow();
    assert SaleAt30 in data;
    assert Values(expected) == [30.0];
    assert IsMetricsTable(data, CustomerAge, expected);
    MetricsTableUnique(data, CustomerAge, rows, expected);
  }

  /** Both quotes are in group A and dated within days 0 to 1. */
  lemma AgeScenarioViews()
    ensures Select([SaleAt30, NoSaleAt30], InGroup("A")) == [SaleAt30, NoSaleAt30]
    ensures Select([SaleAt30, NoSaleAt30], InGroup("B")) == []
    ensures Select([SaleAt30, NoSaleAt30], InDateRange(0, 1)) == [SaleAt30, NoSaleAt30]
  {
    SelectTwo(SaleAt30, NoSaleAt30, InGroup("A"));
    SelectTwo(SaleAt30, NoSaleAt30, InGroup("B"));
    assert "A"[0] != "B"[0];
    SelectTwo(SaleAt30, NoSaleAt30, InDateRange(0, 1));
  }

  /** The cards of the two quotes. */
  lemma AgeScenarioSummary()
    ensures Summarize([SaleAt30, NoSaleAt30]) == Summary(Some(0.5), 150.0, 15.0, 10.0)
  {
    SumOfTwo(SaleAt30, NoSaleAt30, SaleIndicator);
    SumOfTwo(SaleAt30, NoSaleAt30, Profit);
    SumOfTwo(SaleAt30, NoSaleAt30, Tax);
    SumOfTwo(SaleAt30, NoSaleAt30, TotalPrice);
  }

  /** Querying group A over days 0 to 1, both included, on that store: the chart by customer age has the single row for age 30 with
      frequency 2, one sale, net profit 15, gross profit 10 and total price
      150, and the cards show a conversion rate of one half and the same
      totals. */
  method AgeScenario() returns (traces: seq<seq<Row>>, cards: seq<Summary>)
    ensures IsStore(AgeStore)
    ensures traces == [[Row(30.0, 2, 1.0, 15.0, 10.0, 150.0)]]
    ensures cards == [Summary(Some(0.5), 150.0, 15.0, 10.0)]
  {
    traces := UpdateCharts(AgeStore, GroupA, CustomerAge, 0, 1);
    cards := UpdateMetrics(AgeStore, GroupA, 0, 1);
    AgeScenarioViews();
    AgeScenarioSummary();
    AgeScenarioTable(traces[0]);
  }

  /** With nothing dated in the range, a single-group query has an empty chart
      table and a summary whose conversion rate is undefined. */
  lemma EmptyRangeScenario(store: Store, sel: Selection, dim: Dimension, start: int, end: int, rows: seq<Row>)
    requires sel != Versus
    requires DateFilter(GroupTable(store, sel), start, end) == []
    requires IsMetricsTable(DateFilter(GroupTable(store, sel), start, end), dim, rows)
    ensures rows == []
    ensures UpdateMetrics(store, sel, start, end)[0].conversion.None?
    ensures UpdateMetrics(store, sel, start, end)[0].totalPrice == 0.0
  {
    MetricsTableUnique([], dim, rows, []);
  }
}

# Insurance dashboard data engine

This project models the data engine of the insurance A/B-test dashboard in
`dashboard.py`, and proves properties of it. The engine works on a table of
insurance-quote transactions. Each transaction has a date, a test group ('A'
or 'B'), a sale indicator, a total price, a profit, a tax, and five customer
or vehicle attributes.

- **Load** (`load.dfy`), run once at start-up:
  - drop every row with a missing cell;
  - drop the rows whose credit score is above 1000;
  - replace the credit score by its bucket, rounded up to a multiple of ten;
  - replace the licence length by its bucket, the nearest half year with ties to the even double;
  - sort by transaction date;
  - keep the whole table ('+') and the views of groups A and B.

  The in-place steps are methods of the class `Frame`. `Load.Load` runs them in the source's order.
- **Bucketing** (`bucketing.dfy`) holds the two rounding rules as pure functions, with lemmas on them.
- **Table primitives** (`table.dfy`):
  - the record types;
  - boolean masks, and `Select`, which keeps the records a mask holds on;
  - column sums;
  - partition laws, and the facts that masks keep order and give sub-sequences.
- **Metrics** (`metrics.dfy`) holds `calculate_metrics`. It is a method that:
  1. collects the distinct values of the chosen dimension;
  2. fills one row per value with five columns: frequency, conversion (the count of sales), net profit, gross profit = net profit − tax, and total price.

  Its result is specified by `IsMetricsTable`, which is written against a reference row built from group sums. Lemmas prove:
  - the sum-decomposition law: column totals equal the sums over the input;
  - the table is unique.
- **Dashboard** (`dashboard.dfy`) holds the two callbacks:
  - `update_charts`: the metric table of the selected group over an inclusive date range;
  - `update_metrics`: the four summary figures.

  In versus mode each is applied to A and to B separately, over the same range. Lemmas prove:
  - the summary agrees with the chart totals;
  - the combined view's totals are the sums of A's and B's when every record is tagged A or B;
  - versus mode is just the two single-group results.

Modelling choices:
- All numbers are mathematical reals. Sums are exact.
- Dates are integer day numbers, already parsed.
- A raw row has one `Option` per cell.
- Group tags are strings.
- The selector values 'A', 'B', '+' and 'v' are the four constructors of `Dashboard.Selection`. `update_metrics` reads the first character of the selector value. Every option in the source is one character long, so that step changes nothing and is not modelled.

Behaviour of the source that the model keeps as written:
- The date sort is `sort_values` with its default algorithm, which is not stable. `Load.Frame.SortByDate` therefore promises only that the rows are sorted and a permutation, not that ties keep their order.
- The licence bucket uses Python's `round`, which rounds half to even: 1.25 goes to 1.0 and 1.75 goes to 2.0.
- An empty selection gives 0/0 = NaN for the conversion rate in the source. The model returns `None` there, and keeps every other figure at zero, as the source computes it. No precondition excludes the empty selection.
- The source keeps no count of dropped rows, so the model has none either.

## Model

| member | source | states |
|---|---|---|
| Bucketing.Ceil | dashboard.py:17 | `math.ceil`: the result is the integer r with r − 1 < y ≤ r |
| Bucketing.CreditBucket | dashboard.py:17 | the credit bucket is a multiple of ten, at least the score and less than the score plus ten |
| Bucketing.CreditBucketIsLeast | dashboard.py:17 | no multiple of ten that is at least the score is below the bucket, so the bucket is the least one |
| Bucketing.CreditBucketIdempotent | dashboard.py:17 | bucketing a bucketed score gives the same bucket |
| Bucketing.CreditBucketWithin | dashboard.py:15-17 | a score at most 1000 (any limit that is a multiple of ten) gets a bucket at most that limit; a positive score gets a bucket of at least 10 |
| Bucketing.CreditBucketExamples | dashboard.py:17 | 31 goes to 40, 30 stays 30, 30.1 goes to 40 |
| Bucketing.RoundHalfEven | dashboard.py:18 | Python `round`: the result is within one half of the input, and even when the input is exactly between two integers |
| Bucketing.RoundHalfEvenUnique | dashboard.py:18 | those two properties determine the rounded value |
| Bucketing.RoundHalfEvenOfInteger | dashboard.py:18 | rounding an integer gives it back |
| Bucketing.LicenceBucket | dashboard.py:18 | `round(x * 2) / 2` is a whole number of halves within a quarter of the input |
| Bucketing.LicenceBucketNearest | dashboard.py:18 | the licence bucket is a whole number of halves within a quarter of the input; on a tie its double is even |
| Bucketing.LicenceBucketIdempotent | dashboard.py:18 | bucketing a licence length twice is the same as once |
| Bucketing.LicenceBucketExamples | dashboard.py:18 | 1.25 goes to 1.0, 1.75 to 2.0, 0.3 to 0.5 |
| Table.SumOf | dashboard.py:52-64 | `.sum()` of a column; summing the frequency column (one per record) gives the record count |
| Table.Select | dashboard.py:24-25 | a masked table is no longer than its input and holds exactly the input's records on which the mask holds |
| Table.SelectCount | dashboard.py:24-25 | a masked table holds each record the mask holds on exactly as often as the input does, and no other record |
| Table.SelectCommutes | dashboard.py:226-230 | applying the group mask and the date mask in either order keeps the same records, in the same order |
| Table.SelectPartition | dashboard.py:24-25 | when exactly one of two masks holds on each record, the two selections together hold every record exactly once, and their lengths add up |
| Table.SumPartition | dashboard.py:24-25 | under the same condition, every column sum of the table is the sum of the two parts' sums |
| Table.SelectIsSubsequence | dashboard.py:24-25 | a masked table is an order-preserving sub-sequence of its input |
| Table.SelectPreservesSorted | dashboard.py:22-25 | masking a date-sorted table leaves it sorted by date |
| Load.ToRaw | dashboard.py:14 | a record is a complete raw row whose cells are its fields |
| Load.CompleteRecords | dashboard.py:14 | `dropna`: the result is no longer than the input, and a record occurs in it exactly as often as the input holds it with every cell present |
| Load.WithCreditBucket | dashboard.py:17 | the credit-score `apply` on one row: its score becomes a multiple of ten, at least the old score and less than it plus ten; every other field is unchanged |
| Load.WithLicenceBucket | dashboard.py:18 | the licence-length `apply` on one row: its length becomes a whole number of halves within a quarter of the old one; every other field is unchanged |
| Load.Cleaned | dashboard.py:14-18 | the cleaned table is no longer than the raw input, and every credit score in it is a multiple of ten and every licence length a whole number of halves |
| Load.CleanedRecords | dashboard.py:14-18 | in both directions, the cleaned table holds exactly the bucketed complete rows whose credit score is at most 1000; every cleaned score is a multiple of ten at most 1000, and every licence length is a whole number of halves |
| Load.InsertByDate | dashboard.py:22 | inserting into a date-sorted table keeps it sorted and adds exactly that record |
| Load.Frame.constructor | dashboard.py:13 | the frame holds the given rows |
| Load.Frame.DropCreditAbove | dashboard.py:15 | the frame afterwards holds the rows whose credit score is not above the limit, in order |
| Load.Frame.ApplyCreditBuckets | dashboard.py:17 | each row's credit score is replaced by its bucket; nothing else changes |
| Load.Frame.ApplyLicenceBuckets | dashboard.py:18 | each row's licence length is replaced by its bucket; nothing else changes |
| Load.Frame.SortByDate | dashboard.py:22 | the frame afterwards is sorted by date and is a permutation of its rows before |
| Load.IsStore | dashboard.py:24-27 | in a store, each view is no longer than '+' and holds only records of '+' with its own tag |
| Load.DropNa | dashboard.py:14 | the loop that keeps the complete rows computes `CompleteRecords` |
| Load.Load | dashboard.py:13-27 | the loaded table is a date-sorted permutation of the cleaned rows; the A and B views are the table's 'A' and 'B' records in table order; every score is a bucket at most 1000 and every licence length a half unit |
| Metrics.Group | dashboard.py:52-64 | the `.loc[data[metric] == value]` selection: no longer than the data, and holding exactly the records with that value |
| Metrics.GroupCount | dashboard.py:52-64 | the group of a value holds each record with that value exactly as often as the data does, and no other |
| Metrics.RowFor | dashboard.py:52-64 | the reference row for a value carries that value, and its frequency is zero exactly when no record has the value |
| Metrics.InsertKey | dashboard.py:45 | adding a value to a strictly ascending key list keeps it strictly ascending and adds exactly that value |
| Metrics.DistinctValues | dashboard.py:45 | `value_counts` index: strictly ascending, no longer than the data, and holding exactly the values that occur |
| Metrics.GroupMetrics | dashboard.py:52-64 | the accumulating loop yields the reference row for the value: the matching records' count and the sums of sale indicator and profit, profit minus tax, and the total price sum |
| Metrics.CalculateMetrics | dashboard.py:43-68 | the table is strictly ascending by value; it has one row per distinct value that occurs, and each row is the reference row of its group; empty input gives no rows |
| Metrics.GrossTotalSplit | dashboard.py:58-61 | the gross-profit column totals net profit minus the tax carried in the overwritten column |
| Metrics.KeySumDecomposes | dashboard.py:45-64 | when every record's value is among distinct keys, the group sums over the keys add up to the sum over the data |
| Metrics.TableColumnTotal | dashboard.py:43-68 | every column of a metrics table totals the corresponding sum over the input |
| Metrics.MetricsTotals | dashboard.py:43-68 | the frequencies total the input length; conversion, net profit and total price total their columns' sums; gross profit totals profit minus tax; every frequency is at least one |
| Metrics.AscendingSameElements | dashboard.py:66 | two strictly ascending sequences with the same elements are equal |
| Metrics.MetricsTableUnique | dashboard.py:43-68 | the metrics table is determined by the data and the dimension |
| Dashboard.GroupTable | dashboard.py:225 | `dataframes[test_group]` of a store: only records of '+', and for A or B only records with that tag |
| Dashboard.DateFilter | dashboard.py:226-230 | the filtered table holds exactly the records with start ≤ date ≤ end, both ends included |
| Dashboard.DateFilterCount | dashboard.py:226-230 | the date filter keeps each record dated within the range exactly as often as its input holds it, and no other |
| Dashboard.DateFilterKeepsOrder | dashboard.py:226-230 | the date filter gives an order-preserving sub-sequence; a date-sorted input stays sorted |
| Dashboard.Summarize | dashboard.py:360-366 | the conversion rate is undefined exactly when the selection is empty, and otherwise is sales over count; gross profit is net profit minus the tax sum |
| Dashboard.SummaryMatchesTable | dashboard.py:360-366 | the summary's total price and net and gross profit equal the column totals of the chart table of the same records, for any dimension |
| Dashboard.ConversionMatchesTable | dashboard.py:360 | the conversion rate is the table's sales total over its frequency total, and undefined when that total is zero |
| Dashboard.UpdateMetrics | dashboard.py:296-378 | versus mode gives two summaries and a single group gives one |
| Dashboard.VersusIsIndependent | dashboard.py:298-350 | the versus summaries are exactly the A summary followed by the B summary over the same range; no combined figure appears |
| Dashboard.GroupViewsKeepOrder | dashboard.py:24-27 | in every store, each view is an order-preserving sub-sequence of '+', date-sorted when '+' is, and holds each record of its tag exactly as often as '+' does |
| Dashboard.GroupViewsPartition | dashboard.py:24-27 | when every record is tagged A or B, the two views hold every record of '+' exactly once, and their sizes add up |
| Dashboard.DateFilterOfView | dashboard.py:250-262 | filtering a view by date is filtering '+' by date and then taking the view |
| Dashboard.FilteredSumsAdd | dashboard.py:24-27 | over any date range, every column sum of '+' is A's plus B's |
| Dashboard.CombinedSummaryIsSum | dashboard.py:352-366 | the '+' summary's total price and net and gross profit are A's plus B's, and its record count is theirs added |
| Dashboard.UpdateCharts | dashboard.py:222-284 | a single group gives one table, the metrics table of its date-filtered records; versus gives A's table and then B's, over the same range |
| Dashboard.ChartTotalsAdd | dashboard.py:222-284 | for the same dimension and range, every column total and the gross-profit total of the '+' chart table is A's plus B's |
| Dashboard.AgeScenario | dashboard.py:222-366 | on a store holding two group-A quotes for customers aged 30 on days 0 and 1 in '+' and in the A view (a sale: price 100, profit 20, tax 5; a non-sale: price 50, profit −5, tax 0), the chart callback for group A by customer age over days 0 to 1 gives the single row (30, 2, 1, 15, 10, 150), and the card callback gives conversion 0.5, total price 150, net profit 15 and gross profit 10 |
| Dashboard.AgeScenarioTable | dashboard.py:43-68 | the chart table by customer age of those two quotes is the single row (30, 2, 1, 15, 10, 150) |
| Dashboard.EmptyRangeScenario | dashboard.py:352-366 | with nothing dated in the range, the chart table is empty, the conversion rate is undefined and the total price is zero |

## Left out

- Reading the CSV file (`pd.read_csv`) is I/O. The model starts from the raw rows.
- Parsing the date text (`pd.to_datetime`) is library parsing. Dates are already day numbers.
- The input file may have columns beyond the modelled ones. Their missing cells would also make `dropna` drop a row. The model has only the eleven columns the engine uses.
- The Dash and Bootstrap layout, the callback wiring, `build_card` and `run_server` are user-interface and server code.
- The Plotly figures (`px.scatter`, `make_subplots`, `append_trace`) are presentation. `UpdateCharts` returns the tables the figures plot. The y-axis choice only picks a column.
- `commas` and the `round(…, 3)` and `round(…, 2)` calls on the cards only format numbers for display.
- Floating point is replaced by exact reals: rounding error, non-associative sums, NaN and float equality in grouping are not modelled.
- Load.Frame.SortByDate: does not fix the order of rows with equal dates, because the source's sort is not stable.
- Metrics.CalculateMetrics: collects the distinct values in ascending order from the start. The source counts them with `value_counts` (ordered by count) and sorts by value at the end. The returned table is the same, but the intermediate order is not modelled.
- Metrics.CalculateMetrics: the Frequency column is computed from each group's records rather than read from `value_counts`. Both give the same count.
- The spreadsheet's Boolean sale indicator and the other numeric columns are plain reals. No column is checked to hold 0 or 1.

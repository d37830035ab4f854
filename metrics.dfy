/** `calculate_metrics(data, metric)`: group the records by the value of one
    dimension and give, per distinct value, the number of records, the number
    of sales, net profit, gross profit (profit minus tax) and total price; the
    rows ascend by the dimension value. */
module Metrics {
  import opened Table

  /** One row of the table calculate_metrics returns. */
  datatype Row = Row(
    value: real,
    frequency: nat,
    conversion: real,
    netProfit: real,
    grossProfit: real,
    totalPrice: real)

  /** The records whose dimension value is k (`data.loc[data[metric] == k]`). */
  function Group(data: seq<Record>, dim: Dimension, k: real): (g: seq<Record>)
    ensures |g| <= |data|
    ensures forall x :: x in g <==> x in data && DimensionValue(x, dim) == k
  {
    Select(data, HasValue(dim, k))
  }

  /** The group of k holds each record with value k as often as data holds it. */
  lemma GroupCount(data: seq<Record>, dim: Dimension, k: real)
    ensures forall x :: multiset(Group(data, dim, k))[x]
                     == if DimensionValue(x, dim) == k then multiset(data)[x] else 0
  {
    SelectCount(data, HasValue(dim, k));
  }

  /** The reference definition of the row for value k: each column is a sum over `Group`. */
  function RowFor(data: seq<Record>, dim: Dimension, k: real): (row: Row)
    ensures row.value == k
    ensures row.frequency == 0 <==> forall x :: x in data ==> DimensionValue(x, dim) != k
  {
    var g := Group(data, dim, k);
    assert g != [] ==> g[0] in g;
    Row(k, |g|, SumOf(g, SaleIndicator), SumOf(g, Profit),
        SumOf(g, Profit) - SumOf(g, Tax), SumOf(g, TotalPrice))
  }

  predicate StrictlyAscending(keys: seq<real>)
  {
    forall i, j :: 0 <= i < j < |keys| ==> keys[i] < keys[j]
  }

  /** The first column of a table of rows. */
  function Values(rows: seq<Row>): (vs: seq<real>)
    ensures |vs| == |rows| && forall i :: 0 <= i < |rows| ==> vs[i] == rows[i].value
  {
    seq(|rows|, i requires 0 <= i < |rows| => rows[i].value)
  }

  /** rows is the table calculate_metrics gives for data grouped by dim: one
      row per distinct value occurring in data and no other, ascending by
      value, each row with the value's own sums. */
  ghost predicate IsMetricsTable(data: seq<Record>, dim: Dimension, rows: seq<Row>)
  {
    && StrictlyAscending(Values(rows))
    && (forall i :: 0 <= i < |rows| ==> rows[i] == RowFor(data, dim, rows[i].value))
    && (forall i :: 0 <= i < |rows| ==>
          exists x :: x in data && DimensionValue(x, dim) == rows[i].value)
    && (forall x :: x in data ==> DimensionValue(x, dim) in Values(rows))
  }

  /** k added to the ascending, duplicate-free keys at its place, unless present. */
  function InsertKey(keys: seq<real>, k: real): (r: seq<real>)
    requires StrictlyAscending(keys)
    ensures StrictlyAscending(r)
    ensures forall v :: v in r <==> v in keys || v == k
    ensures |r| <= |keys| + 1
  {
    if keys == [] then [k]
    else if k < keys[0] then [k] + keys
    else if k == keys[0] then keys
    else
      var rest := InsertKey(keys[1..], k);
      assert keys == [keys[0]] + keys[1..];
      assert forall i :: 0 <= i < |rest| ==> keys[0] < rest[i] by {
        forall i | 0 <= i < |rest| ensures keys[0] < rest[i] {
          assert rest[i] in rest;
          if rest[i] != k {
            var j :| 0 <= j < |keys[1..]| && keys[1..][j] == rest[i];
            assert keys[j + 1] == rest[i];
          }
        }
      }
      [keys[0]] + rest
  }

  /** `data[metric].value_counts()` keys, put into ascending order (the order
      the final sort_values gives the rows, whose values are distinct). */
  method DistinctValues(data: seq<Record>, dim: Dimension) returns (keys: seq<real>)
    ensures StrictlyAscending(keys) && |keys| <= |data|
    ensures forall v :: v in keys <==> exists x :: x in data && DimensionValue(x, dim) == v
  {
    keys := [];
    for i := 0 to |data|
      invariant StrictlyAscending(keys) && |keys| <= i
      invariant forall v :: v in keys <==> exists j :: 0 <= j < i && DimensionValue(data[j], dim) == v
    {
      keys := InsertKey(keys, DimensionValue(data[i], dim));
    }
    forall v | v in keys
      ensures exists x :: x in data && DimensionValue(x, dim) == v
    {
      var j :| 0 <= j < |data| && DimensionValue(data[j], dim) == v;
      assert data[j] in data;
    }
    forall x | x in data
      ensures DimensionValue(x, dim) in keys
    {
      var j :| 0 <= j < |data| && data[j] == x;
      assert DimensionValue(data[j], dim) == DimensionValue(x, dim);
    }
  }

  /** Extending a prefix of data by one record extends the group of that record's value. */
  lemma GroupStep(data: seq<Record>, i: nat, dim: Dimension, k: real)
    requires i < |data|
    ensures Group(data[..i + 1], dim, k)
         == Group(data[..i], dim, k) + (if DimensionValue(data[i], dim) == k then [data[i]] else [])
  {
    assert data[..i + 1] == data[..i] + [data[i]];
    SelectAppend(data[..i], data[i], HasValue(dim, k));
  }

  /** One more record of data extends the group's count and sums by that record, if its value is k. */
  lemma GroupSumsStep(data: seq<Record>, i: nat, dim: Dimension, k: real)
    requires i < |data|
    ensures var g, g' := Group(data[..i], dim, k), Group(data[..i + 1], dim, k);
            var hit := DimensionValue(data[i], dim) == k;
            && |g'| == |g| + (if hit then 1 else 0)
            && SumOf(g', SaleIndicator) == SumOf(g, SaleIndicator) + (if hit then data[i].saleIndicator else 0.0)
            && SumOf(g', Profit) == SumOf(g, Profit) + (if hit then data[i].profit else 0.0)
            && SumOf(g', Tax) == SumOf(g, Tax) + (if hit then data[i].tax else 0.0)
            && SumOf(g', TotalPrice) == SumOf(g, TotalPrice) + (if hit then data[i].totalPrice else 0.0)
  {
    GroupStep(data, i, dim, k);
    var g := Group(data[..i], dim, k);
    if DimensionValue(data[i], dim) == k {
      SumOfAppend(g, data[i], SaleIndicator);
      SumOfAppend(g, data[i], Profit);
      SumOfAppend(g, data[i], Tax);
      SumOfAppend(g, data[i], TotalPrice);
    } else {
      assert Group(data[..i + 1], dim, k) == g + [] == g;
    }
  }

  /** The sums of one row: one pass over data adding up the records whose
      value is k. As in the source, the gross profit column first receives
      the tax sum and is then overwritten with net profit minus it. */
  method GroupMetrics(data: seq<Record>, dim: Dimension, k: real) returns (row: Row)
    ensures row == RowFor(data, dim, k)
  {
    var frequency: nat := 0;
    var conversion, netProfit, tax, totalPrice := 0.0, 0.0, 0.0, 0.0;
    for i := 0 to |data|
      invariant frequency == |Group(data[..i], dim, k)|
      invariant conversion == SumOf(Group(data[..i], dim, k), SaleIndicator)
      invariant netProfit == SumOf(Group(data[..i], dim, k), Profit)
      invariant tax == SumOf(Group(data[..i], dim, k), Tax)
      invariant totalPrice == SumOf(Group(data[..i], dim, k), TotalPrice)
    {
      GroupSumsStep(data, i, dim, k);
      if DimensionValue(data[i], dim) == k {
        frequency := frequency + 1;
        conversion := conversion + data[i].saleIndicator;
        netProfit := netProfit + data[i].profit;
        tax := tax + data[i].tax;
        totalPrice := totalPrice + data[i].totalPrice;
      }
    }
    assert data[..|data|] == data;
    var grossProfit := tax;
    grossProfit := netProfit - grossProfit;
    row := Row(k, frequency, conversion, netProfit, grossProfit, totalPrice);
  }

  /** `calculate_metrics(data, metric)`: a loop over the distinct values of
      the dimension, building one row for each. */
  method CalculateMetrics(data: seq<Record>, dim: Dimension) returns (rows: seq<Row>)
    ensures IsMetricsTable(data, dim, rows)
    ensures data == [] ==> rows == []
  {
    var keys := DistinctValues(data, dim);
    rows := [];
    for j := 0 to |keys|
      invariant |rows| == j
      invariant forall i :: 0 <= i < j ==> rows[i] == RowFor(data, dim, keys[i])
    {
      var row := GroupMetrics(data, dim, keys[j]);
      rows := rows + [row];
    }
    assert Values(rows) == keys;
    forall i | 0 <= i < |rows|
      ensures exists x :: x in data && DimensionValue(x, dim) == rows[i].value
    {
      assert rows[i].value == keys[i] && keys[i] in keys;
      var x :| x in data && DimensionValue(x, dim) == keys[i];
    }
    assert forall i :: 0 <= i < |rows| ==> rows[i] == RowFor(data, dim, rows[i].value);
    assert forall x :: x in data ==> DimensionValue(x, dim) in Values(rows);
    assert IsMetricsTable(data, dim, rows);
  }

  /** The column of a row that sums measure m; for Tax it is the amount the row
      took from net profit to give gross profit. */
  function Column(row: Row, m: Measure): real
  {
    match m
    case Frequency => row.frequency as real
    case SaleIndicator => row.conversion
    case TotalPrice => row.totalPrice
    case Profit => row.netProfit
    case Tax => row.netProfit - row.grossProfit
  }

  function ColumnTotal(rows: seq<Row>, m: Measure): real
  {
    if rows == [] then 0.0 else ColumnTotal(rows[..|rows| - 1], m) + Column(rows[|rows| - 1], m)
  }

  function GrossTotal(rows: seq<Row>): real
  {
    if rows == [] then 0.0 else GrossTotal(rows[..|rows| - 1]) + rows[|rows| - 1].grossProfit
  }

  lemma {:induction false} GrossTotalSplit(rows: seq<Row>)
    ensures GrossTotal(rows) == ColumnTotal(rows, Profit) - ColumnTotal(rows, Tax)
  {
    if rows != [] {
      GrossTotalSplit(rows[..|rows| - 1]);
    }
  }

  predicate Distinct(keys: seq<real>)
  {
    forall i, j :: 0 <= i < j < |keys| ==> keys[i] != keys[j]
  }

  /** The sums of measure m over the groups of the given keys, added up. */
  function KeySum(data: seq<Record>, dim: Dimension, keys: seq<real>, m: Measure): real
  {
    if keys == [] then 0.0
    else KeySum(data, dim, keys[..|keys| - 1], m) + SumOf(Group(data, dim, keys[|keys| - 1]), m)
  }

  lemma {:induction false} KeySumOfEmpty(dim: Dimension, keys: seq<real>, m: Measure)
    ensures KeySum([], dim, keys, m) == 0.0
  {
    if keys != [] {
      KeySumOfEmpty(dim, keys[..|keys| - 1], m);
    }
  }

  /** One more record adds its weight to the one group among distinct keys it
      belongs to, if any. */
  lemma {:induction false} KeySumAppend(data: seq<Record>, x: Record, dim: Dimension, keys: seq<real>, m: Measure)
    requires Distinct(keys)
    ensures KeySum(data + [x], dim, keys, m)
         == KeySum(data, dim, keys, m) + (if DimensionValue(x, dim) in keys then Weight(x, m) else 0.0)
  {
    if keys != [] {
      var ks, k := keys[..|keys| - 1], keys[|keys| - 1];
      assert keys == ks + [k];
      KeySumAppend(data, x, dim, ks, m);
      SelectAppend(data, x, HasValue(dim, k));
      SumOfAppend(Group(data, dim, k), x, m);
      assert k !in ks by {
        forall i | 0 <= i < |ks| ensures ks[i] != k {
          assert keys[i] == ks[i] && keys[|keys| - 1] == k;
        }
      }
    }
  }

  /** Sum decomposition: over distinct keys covering every record's value,
      the groups' sums of a measure add up to its sum over all of data. */
  lemma {:induction false} KeySumDecomposes(data: seq<Record>, dim: Dimension, keys: seq<real>, m: Measure)
    requires Distinct(keys)
    requires forall x :: x in data ==> DimensionValue(x, dim) in keys
    ensures KeySum(data, dim, keys, m) == SumOf(data, m)
  {
    if data == [] {
      KeySumOfEmpty(dim, keys, m);
    } else {
      var t, x := data[..|data| - 1], data[|data| - 1];
      assert data == t + [x];
      KeySumDecomposes(t, dim, keys, m);
      KeySumAppend(t, x, dim, keys, m);
    }
  }

  /** The column total of rows that are the rows of their own values. */
  lemma {:induction false} ColumnTotalIsKeySum(data: seq<Record>, dim: Dimension, rows: seq<Row>, m: Measure)
    requires forall i :: 0 <= i < |rows| ==> rows[i] == RowFor(data, dim, rows[i].value)
    ensures ColumnTotal(rows, m) == KeySum(data, dim, Values(rows), m)
  {
    if rows != [] {
      var rs, row := rows[..|rows| - 1], rows[|rows| - 1];
      ColumnTotalIsKeySum(data, dim, rs, m);
      assert Values(rows)[..|rows| - 1] == Values(rs);
    }
  }

  /** Over a metrics table, each column total is the measure's total over the input. */
  lemma TableColumnTotal(data: seq<Record>, dim: Dimension, rows: seq<Row>, m: Measure)
    requires IsMetricsTable(data, dim, rows)
    ensures ColumnTotal(rows, m) == SumOf(data, m)
  {
    ColumnTotalIsKeySum(data, dim, rows, m);
    KeySumDecomposes(data, dim, Values(rows), m);
  }

  /** The totals of every column of a metrics table are the totals over the
      input: the frequencies add up to the number of records, conversions to
      the number of sales, and gross profit to profit minus tax. No row has
      frequency zero. */
  lemma MetricsTotals(data: seq<Record>, dim: Dimension, rows: seq<Row>)
    requires IsMetricsTable(data, dim, rows)
    ensures ColumnTotal(rows, Frequency) == |data| as real
    ensures ColumnTotal(rows, SaleIndicator) == SumOf(data, SaleIndicator)
    ensures ColumnTotal(rows, Profit) == SumOf(data, Profit)
    ensures ColumnTotal(rows, TotalPrice) == SumOf(data, TotalPrice)
    ensures GrossTotal(rows) == SumOf(data, Profit) - SumOf(data, Tax)
    ensures forall i :: 0 <= i < |rows| ==> rows[i].frequency >= 1
  {
    TableColumnTotal(data, dim, rows, Frequency);
    TableColumnTotal(data, dim, rows, SaleIndicator);
    TableColumnTotal(data, dim, rows, Profit);
    TableColumnTotal(data, dim, rows, Tax);
    TableColumnTotal(data, dim, rows, TotalPrice);
    GrossTotalSplit(rows);
    forall i | 0 <= i < |rows|
      ensures rows[i].frequency >= 1
    {
      var x :| x in data && DimensionValue(x, dim) == rows[i].value;
      assert x in Group(data, dim, rows[i].value);
    }
  }

  lemma {:induction false} AscendingSameElements(a: seq<real>, b: seq<real>)
    requires StrictlyAscending(a) && StrictlyAscending(b)
    requires forall v :: v in a <==> v in b
    ensures a == b
  {
    if a != [] {
      assert a[0] in a;
    }
    if b != [] {
      assert b[0] in b;
    }
    if a != [] {
      assert a[0] in b && b[0] in a;
      assert a[0] == b[0];
      forall v
        ensures v in a[1..] <==> v in b[1..]
      {
        if v in a[1..] {
          assert v in b && v != b[0];
        }
        if v in b[1..] {
          assert v in a && v != a[0];
        }
      }
      AscendingSameElements(a[1..], b[1..]);
      assert a == [a[0]] + a[1..] && b == [b[0]] + b[1..];
    }
  }

  /** The table is determined by the data and the dimension. */
  lemma MetricsTableUnique(data: seq<Record>, dim: Dimension, rows1: seq<Row>, rows2: seq<Row>)
    requires IsMetricsTable(data, dim, rows1) && IsMetricsTable(data, dim, rows2)
    ensures rows1 == rows2
  {
    var vs1, vs2 := Values(rows1), Values(rows2);
    forall v
      ensures v in vs1 <==> v in vs2
    {
      if v in vs1 {
        var i :| 0 <= i < |vs1| && vs1[i] == v;
        var x :| x in data && DimensionValue(x, dim) == rows1[i].value;
      }
      if v in vs2 {
        var i :| 0 <= i < |vs2| && vs2[i] == v;
        var x :| x in data && DimensionValue(x, dim) == rows2[i].value;
      }
    }
    AscendingSameElements(vs1, vs2);
    assert forall i :: 0 <= i < |rows1| ==> rows1[i] == rows2[i] by {
      forall i | 0 <= i < |rows1| ensures rows1[i] == rows2[i] {
        assert vs1[i] == vs2[i];
      }
    }
  }
}

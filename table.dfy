/** The transaction table of the dashboard and the two primitives every step
    and every query is built from: keeping the records a boolean mask selects
    (pandas' `data.loc[mask]`, `query`, `drop`) and summing a column. */
module Table {

  datatype Option<T> = None | Some(value: T)

  /** One row of the input file as read: any cell may be empty. The date is a
      day number, already parsed from its day/month/year text. */
  datatype RawRecord = RawRecord(
    transactionDate: Option<int>,
    testGroup: Option<string>,
    saleIndicator: Option<real>,
    totalPrice: Option<real>,
    profit: Option<real>,
    tax: Option<real>,
    creditScore: Option<real>,
    licenceLength: Option<real>,
    customerAge: Option<real>,
    vehicleValue: Option<real>,
    vehicleMileage: Option<real>)

  /** A row with every cell present. */
  datatype Record = Record(
    transactionDate: int,
    testGroup: string,
    saleIndicator: real,
    totalPrice: real,
    profit: real,
    tax: real,
    creditScore: real,
    licenceLength: real,
    customerAge: real,
    vehicleValue: real,
    vehicleMileage: real)

  /** The five x-axis variables a chart can group by. */
  datatype Dimension = CustomerAge | CreditScore | VehicleValue | VehicleMileage | LicenceLength

  function DimensionValue(r: Record, d: Dimension): real
  {
    match d
    case CustomerAge => r.customerAge
    case CreditScore => r.creditScore
    case VehicleValue => r.vehicleValue
    case VehicleMileage => r.vehicleMileage
    case LicenceLength => r.licenceLength
  }

  /** A quantity that is summed over records; Frequency counts each record once. */
  datatype Measure = Frequency | SaleIndicator | TotalPrice | Profit | Tax

  function Weight(r: Record, m: Measure): real
  {
    match m
    case Frequency => 1.0
    case SaleIndicator => r.saleIndicator
    case TotalPrice => r.totalPrice
    case Profit => r.profit
    case Tax => r.tax
  }

  /** `s[column].sum()`, in exact arithmetic. */
  function SumOf(s: seq<Record>, m: Measure): (r: real)
    ensures m == Frequency ==> r == |s| as real
  {
    if s == [] then 0.0 else SumOf(s[..|s| - 1], m) + Weight(s[|s| - 1], m)
  }

  /** The boolean masks the program applies to the table. */
  datatype Mask =
    | CreditAtMost(limit: real)
    | InGroup(tag: string)
    | InDateRange(start: int, end: int)
    | HasValue(dim: Dimension, value: real)

  predicate Holds(m: Mask, r: Record)
  {
    match m
    case CreditAtMost(limit) => r.creditScore <= limit
    case InGroup(tag) => r.testGroup == tag
    case InDateRange(start, end) => start <= r.transactionDate <= end
    case HasValue(dim, value) => DimensionValue(r, dim) == value
  }

  /** The records of s on which the mask holds, in their order in s. */
  function Select(s: seq<Record>, m: Mask): (r: seq<Record>)
    ensures |r| <= |s|
    ensures forall x :: x in r <==> x in s && Holds(m, x)
  {
    if s == [] then []
    else
      var kept := Select(s[..|s| - 1], m);
      assert s == s[..|s| - 1] + [s[|s| - 1]];
      if Holds(m, s[|s| - 1]) then kept + [s[|s| - 1]] else kept
  }

  lemma SelectAppend(s: seq<Record>, x: Record, m: Mask)
    ensures Select(s + [x], m) == Select(s, m) + (if Holds(m, x) then [x] else [])
  {
    assert (s + [x])[..|s|] == s;
  }

  /** A mask keeps every record it holds on as often as s holds it, and no other. */
  lemma {:induction false} SelectCount(s: seq<Record>, m: Mask)
    ensures forall x :: multiset(Select(s, m))[x] == if Holds(m, x) then multiset(s)[x] else 0
  {
    if s != [] {
      var t, y := s[..|s| - 1], s[|s| - 1];
      assert s == t + [y];
      SelectCount(t, m);
      SelectAppend(t, y, m);
    }
  }

  lemma SumOfAppend(s: seq<Record>, x: Record, m: Measure)
    ensures SumOf(s + [x], m) == SumOf(s, m) + Weight(x, m)
  {
    assert (s + [x])[..|s|] == s;
  }

  /** Applying two masks one after the other, in either order, keeps the same records. */
  lemma {:induction false} SelectCommutes(s: seq<Record>, m1: Mask, m2: Mask)
    ensures Select(Select(s, m1), m2) == Select(Select(s, m2), m1)
  {
    if s != [] {
      var t, x := s[..|s| - 1], s[|s| - 1];
      assert s == t + [x];
      SelectCommutes(t, m1, m2);
      SelectAppend(t, x, m1);
      SelectAppend(t, x, m2);
      SelectAppend(Select(t, m1), x, m2);
      SelectAppend(Select(t, m2), x, m1);
    }
  }

  /** Two masks of which exactly one holds on each record split s: the
      selections are disjoint and together hold every record of s. */
  lemma {:induction false} SelectPartition(s: seq<Record>, m1: Mask, m2: Mask)
    requires forall x :: x in s ==> Holds(m1, x) != Holds(m2, x)
    ensures multiset(Select(s, m1)) + multiset(Select(s, m2)) == multiset(s)
    ensures |Select(s, m1)| + |Select(s, m2)| == |s|
  {
    if s != [] {
      var t, x := s[..|s| - 1], s[|s| - 1];
      assert s == t + [x];
      SelectPartition(t, m1, m2);
      SelectAppend(t, x, m1);
      SelectAppend(t, x, m2);
    }
    assert |multiset(Select(s, m1))| + |multiset(Select(s, m2))| == |multiset(s)|;
  }

  /** Under the same condition, every column sum of s is the sum of the two parts'. */
  lemma {:induction false} SumPartition(s: seq<Record>, m1: Mask, m2: Mask, m: Measure)
    requires forall x :: x in s ==> Holds(m1, x) != Holds(m2, x)
    ensures SumOf(s, m) == SumOf(Select(s, m1), m) + SumOf(Select(s, m2), m)
  {
    if s != [] {
      var t, x := s[..|s| - 1], s[|s| - 1];
      assert s == t + [x];
      SumPartition(t, m1, m2, m);
      SelectAppend(t, x, m1);
      SelectAppend(t, x, m2);
      SumOfAppend(Select(t, m1), x, m);
      SumOfAppend(Select(t, m2), x, m);
    }
  }

  /** t is s with some elements left out, the rest in their original order. */
  ghost predicate IsSubsequence<T>(t: seq<T>, s: seq<T>)
    decreases |s|
  {
    if t == [] then true
    else if s == [] then false
    else
      (t[|t| - 1] == s[|s| - 1] && IsSubsequence(t[..|t| - 1], s[..|s| - 1]))
      || IsSubsequence(t, s[..|s| - 1])
  }

  /** A mask keeps an order-preserving sub-sequence of its input. */
  lemma {:induction false} SelectIsSubsequence(s: seq<Record>, m: Mask)
    ensures IsSubsequence(Select(s, m), s)
  {
    if s != [] {
      var t, x := s[..|s| - 1], s[|s| - 1];
      SelectIsSubsequence(t, m);
      var r := Select(s, m);
      if Holds(m, x) {
        assert r[..|r| - 1] == Select(t, m);
      }
    }
  }

  predicate SortedByDate(s: seq<Record>)
  {
    forall i, j :: 0 <= i < j < |s| ==> s[i].transactionDate <= s[j].transactionDate
  }

  /** Masking a table sorted by date leaves it sorted by date. */
  lemma {:induction false} SelectPreservesSorted(s: seq<Record>, m: Mask)
    requires SortedByDate(s)
    ensures SortedByDate(Select(s, m))
  {
    if s != [] {
      var t, x := s[..|s| - 1], s[|s| - 1];
      SelectPreservesSorted(t, m);
      var kept := Select(t, m);
      forall y | y in kept
        ensures y.transactionDate <= x.transactionDate
      {
        var i :| 0 <= i < |t| && t[i] == y;
        assert s[i] == y;
      }
    }
  }
}

/** The load pipeline that runs once at start-up: drop incomplete rows, drop
    rows whose credit score exceeds 1000, replace the credit score and the
    licence length by their buckets, sort by transaction date and split the
    table into the views of test groups A and B. */
module Load {
  import opened Table
  import opened Bucketing

  /** Rows whose credit score is above this are invalid. */
  const MAX_CREDIT_SCORE: int := 1000

  predicate IsComplete(y: RawRecord)
  {
    && y.transactionDate.Some? && y.testGroup.Some? && y.saleIndicator.Some?
    && y.totalPrice.Some? && y.profit.Some? && y.tax.Some?
    && y.creditScore.Some? && y.licenceLength.Some?
    && y.customerAge.Some? && y.vehicleValue.Some? && y.vehicleMileage.Some?
  }

  function ToRecord(y: RawRecord): Record
    requires IsComplete(y)
  {
    Record(y.transactionDate.value, y.testGroup.value, y.saleIndicator.value,
           y.totalPrice.value, y.profit.value, y.tax.value,
           y.creditScore.value, y.licenceLength.value,
           y.customerAge.value, y.vehicleValue.value, y.vehicleMileage.value)
  }

  /** A record as a raw row with every cell present. */
  function ToRaw(x: Record): (y: RawRecord)
    ensures IsComplete(y) && ToRecord(y) == x
  {
    RawRecord(Some(x.transactionDate), Some(x.testGroup), Some(x.saleIndicator),
              Some(x.totalPrice), Some(x.profit), Some(x.tax),
              Some(x.creditScore), Some(x.licenceLength),
              Some(x.customerAge), Some(x.vehicleValue), Some(x.vehicleMileage))
  }

  /** `dropna()`: the complete rows of raw, in order. A record occurs in the
      result exactly as often as it occurs, fully present, in raw. */
  function CompleteRecords(raw: seq<RawRecord>): (r: seq<Record>)
    ensures |r| <= |raw|
    ensures forall x :: multiset(r)[x] == multiset(raw)[ToRaw(x)]
    ensures forall x :: x in r <==> ToRaw(x) in raw
  {
    if raw == [] then []
    else
      var y := raw[|raw| - 1];
      var kept := CompleteRecords(raw[..|raw| - 1]);
      assert raw == raw[..|raw| - 1] + [y];
      if IsComplete(y) then
        assert ToRaw(ToRecord(y)) == y;
        kept + [ToRecord(y)]
      else kept
  }

  /** The rewrite of one row by the credit-score `apply`. */
  function WithCreditBucket(x: Record): (r: Record)
    ensures IsCreditBucket(r.creditScore)
    ensures x.creditScore <= r.creditScore < x.creditScore + 10.0
    ensures r.(creditScore := x.creditScore) == x
  {
    x.(creditScore := CreditBucket(x.creditScore) as real)
  }

  /** The rewrite of one row by the licence-length `apply`. */
  function WithLicenceBucket(x: Record): (r: Record)
    ensures IsHalfUnit(r.licenceLength)
    ensures x.licenceLength - 0.25 <= r.licenceLength <= x.licenceLength + 0.25
    ensures r.(licenceLength := x.licenceLength) == x
  {
    x.(licenceLength := LicenceBucket(x.licenceLength))
  }

  /** The records of raw that survive cleaning, each with its buckets, in input order. */
  function Cleaned(raw: seq<RawRecord>): (r: seq<Record>)
    ensures |r| <= |raw|
    ensures forall i :: 0 <= i < |r| ==> IsCreditBucket(r[i].creditScore) && IsHalfUnit(r[i].licenceLength)
  {
    var valid := Select(CompleteRecords(raw), CreditAtMost(MAX_CREDIT_SCORE as real));
    seq(|valid|, i requires 0 <= i < |valid| => WithLicenceBucket(WithCreditBucket(valid[i])))
  }

  /** What cleaning keeps: exactly the bucketed forms of the complete rows whose
      credit score is at most 1000; and every kept record has a credit score
      that is a multiple of ten not above 1000 and a licence length in half units. */
  lemma CleanedRecords(raw: seq<RawRecord>)
    ensures forall x :: x in Cleaned(raw) ==>
              exists y :: y in raw && IsComplete(y) && y.creditScore.value <= MAX_CREDIT_SCORE as real
                          && x == WithLicenceBucket(WithCreditBucket(ToRecord(y)))
    ensures forall y :: y in raw && IsComplete(y) && y.creditScore.value <= MAX_CREDIT_SCORE as real ==>
              WithLicenceBucket(WithCreditBucket(ToRecord(y))) in Cleaned(raw)
    ensures forall x :: x in Cleaned(raw) ==>
              x.creditScore <= MAX_CREDIT_SCORE as real && IsCreditBucket(x.creditScore)
              && IsHalfUnit(x.licenceLength)
  {
    var valid := Select(CompleteRecords(raw), CreditAtMost(MAX_CREDIT_SCORE as real));
    var c := Cleaned(raw);
    forall x | x in c
      ensures exists y :: y in raw && IsComplete(y) && y.creditScore.value <= MAX_CREDIT_SCORE as real
                          && x == WithLicenceBucket(WithCreditBucket(ToRecord(y)))
      ensures x.creditScore <= MAX_CREDIT_SCORE as real && IsCreditBucket(x.creditScore)
              && IsHalfUnit(x.licenceLength)
    {
      var i :| 0 <= i < |c| && c[i] == x;
      var v := valid[i];
      assert v in valid;
      assert ToRaw(v) in raw;
      CreditBucketWithin(v.creditScore, MAX_CREDIT_SCORE);
      LicenceBucketNearest(v.licenceLength);
    }
    forall y | y in raw && IsComplete(y) && y.creditScore.value <= MAX_CREDIT_SCORE as real
      ensures WithLicenceBucket(WithCreditBucket(ToRecord(y))) in c
    {
      assert ToRaw(ToRecord(y)) == y;
      var v := ToRecord(y);
      assert v in valid;
      var i :| 0 <= i < |valid| && valid[i] == v;
      assert c[i] == WithLicenceBucket(WithCreditBucket(v));
    }
  }

  /** A record dated no later than every record of a sorted table can go in front of it. */
  lemma PrependSorted(y: Record, t: seq<Record>)
    requires SortedByDate(t)
    requires forall z :: z in t ==> y.transactionDate <= z.transactionDate
    ensures SortedByDate([y] + t)
  {
    forall i, j | 0 <= i < j < |[y] + t|
      ensures ([y] + t)[i].transactionDate <= ([y] + t)[j].transactionDate
    {
      if i == 0 {
        assert ([y] + t)[j] == t[j - 1];
        assert t[j - 1] in t;
      }
    }
  }

  /** A lower bound on the dates of a table and of a record bounds the table with the record added. */
  lemma BoundAfterInsert(y: Record, x: Record, t: seq<Record>, rest: seq<Record>)
    requires multiset(rest) == multiset(t) + multiset{x}
    requires forall z :: z in t ==> y.transactionDate <= z.transactionDate
    requires y.transactionDate <= x.transactionDate
    ensures forall z :: z in rest ==> y.transactionDate <= z.transactionDate
  {
    forall z | z in rest
      ensures y.transactionDate <= z.transactionDate
    {
      assert z in multiset(rest);
      if z != x {
        assert z in multiset(t);
      }
    }
  }

  /** x inserted into the date-sorted s ahead of the first record not dated before it. */
  function InsertByDate(x: Record, s: seq<Record>): (r: seq<Record>)
    requires SortedByDate(s)
    ensures SortedByDate(r)
    ensures multiset(r) == multiset(s) + multiset{x}
  {
    if s == [] then [x]
    else if x.transactionDate <= s[0].transactionDate then
      PrependSorted(x, s);
      [x] + s
    else
      var t := s[1..];
      assert s == [s[0]] + t;
      assert forall z :: z in t ==> s[0].transactionDate <= z.transactionDate;
      var rest := InsertByDate(x, t);
      BoundAfterInsert(s[0], x, t, rest);
      PrependSorted(s[0], rest);
      [s[0]] + rest
  }

  /** The data frame during loading, updated in place step by step. */
  class Frame {
    var rows: seq<Record>

    constructor (rows0: seq<Record>)
      ensures rows == rows0
    {
      rows := rows0;
    }

    /** `df.drop(df[df['Credit Score'] > limit].index, inplace=True)` */
    method DropCreditAbove(limit: real)
      modifies this
      ensures rows == Select(old(rows), CreditAtMost(limit))
    {
      var kept := [];
      var i := 0;
      while i < |rows|
        invariant 0 <= i <= |rows| && rows == old(rows)
        invariant kept == Select(rows[..i], CreditAtMost(limit))
      {
        SelectAppend(rows[..i], rows[i], CreditAtMost(limit));
        assert rows[..i + 1] == rows[..i] + [rows[i]];
        if !(rows[i].creditScore > limit) {
          kept := kept + [rows[i]];
        }
        i := i + 1;
      }
      assert rows[..i] == rows;
      rows := kept;
    }

    /** `df['Credit Score'] = df['Credit Score'].apply(...)` */
    method ApplyCreditBuckets()
      modifies this
      ensures |rows| == |old(rows)|
      ensures forall i :: 0 <= i < |rows| ==> rows[i] == WithCreditBucket(old(rows)[i])
    {
      var i := 0;
      while i < |rows|
        invariant 0 <= i <= |rows| == |old(rows)|
        invariant forall j :: 0 <= j < i ==> rows[j] == WithCreditBucket(old(rows)[j])
        invariant forall j :: i <= j < |rows| ==> rows[j] == old(rows)[j]
      {
        rows := rows[i := rows[i].(creditScore := CreditBucket(rows[i].creditScore) as real)];
        i := i + 1;
      }
    }

    /** `df['Licence Length'] = df['Licence Length'].apply(...)` */
    method ApplyLicenceBuckets()
      modifies this
      ensures |rows| == |old(rows)|
      ensures forall i :: 0 <= i < |rows| ==> rows[i] == WithLicenceBucket(old(rows)[i])
    {
      var i := 0;
      while i < |rows|
        invariant 0 <= i <= |rows| == |old(rows)|
        invariant forall j :: 0 <= j < i ==> rows[j] == WithLicenceBucket(old(rows)[j])
        invariant forall j :: i <= j < |rows| ==> rows[j] == old(rows)[j]
      {
        rows := rows[i := rows[i].(licenceLength := LicenceBucket(rows[i].licenceLength))];
        i := i + 1;
      }
    }

    /** `df.sort_values("Transaction Date", inplace=True)`: the rows, reordered
        so that dates ascend. The order of rows with equal dates is not fixed. */
    method SortByDate()
      modifies this
      ensures SortedByDate(rows)
      ensures multiset(rows) == multiset(old(rows))
    {
      var sorted := [];
      var i := 0;
      while i < |rows|
        invariant 0 <= i <= |rows| && rows == old(rows)
        invariant SortedByDate(sorted)
        invariant multiset(sorted) == multiset(rows[..i])
      {
        assert rows[..i + 1] == rows[..i] + [rows[i]];
        sorted := InsertByDate(rows[i], sorted);
        i := i + 1;
      }
      assert rows[..i] == rows;
      rows := sorted;
    }
  }

  /** `dataframes`: the whole table ('+') and the views of groups A and B. */
  datatype Store = Store(combined: seq<Record>, a: seq<Record>, b: seq<Record>)

  /** The A and B views are the records of the table tagged 'A' and 'B', in table order. */
  ghost predicate IsStore(store: Store): (b: bool)
    ensures b ==> |store.a| <= |store.combined| && |store.b| <= |store.combined|
    ensures b ==> forall x :: x in store.a ==> x in store.combined && x.testGroup == "A"
    ensures b ==> forall x :: x in store.b ==> x in store.combined && x.testGroup == "B"
  {
    && store.a == Select(store.combined, InGroup("A"))
    && store.b == Select(store.combined, InGroup("B"))
  }

  /** `df.dropna()`: one pass over the raw rows keeping the complete ones. */
  method DropNa(raw: seq<RawRecord>) returns (df: seq<Record>)
    ensures df == CompleteRecords(raw)
  {
    df := [];
    var i := 0;
    while i < |raw|
      invariant 0 <= i <= |raw|
      invariant df == CompleteRecords(raw[..i])
    {
      assert raw[..i + 1][..i] == raw[..i];
      if IsComplete(raw[i]) {
        df := df + [ToRecord(raw[i])];
      }
      i := i + 1;
    }
    assert raw[..i] == raw;
  }

  /** The whole start-up pipeline. */
  method Load(raw: seq<RawRecord>) returns (store: Store)
    ensures multiset(store.combined) == multiset(Cleaned(raw))
    ensures SortedByDate(store.combined)
    ensures IsStore(store)
    ensures forall x :: x in store.combined ==>
              x.creditScore <= MAX_CREDIT_SCORE as real && IsCreditBucket(x.creditScore)
              && IsHalfUnit(x.licenceLength)
  {
    var complete := DropNa(raw);
    var df := new Frame(complete);
    df.DropCreditAbove(MAX_CREDIT_SCORE as real);
    ghost var valid := df.rows;
    df.ApplyCreditBuckets();
    df.ApplyLicenceBuckets();
    assert df.rows == Cleaned(raw);
    df.SortByDate();
    var all := df.rows;
    store := Store(all, Select(all, InGroup("A")), Select(all, InGroup("B")));
    CleanedRecords(raw);
    forall x | x in store.combined
      ensures x in Cleaned(raw)
    {
      assert x in multiset(store.combined);
    }
  }
}

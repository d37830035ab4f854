/** The two load-time discretisations of the dashboard: the credit score is
    rounded up to a multiple of ten and the licence length to the nearest half
    year. Both are pure functions of one number. */
module Bucketing {

  /** Python's math.ceil: the least integer that is not below y. */
  function Ceil(y: real): (r: int)
    ensures r as real - 1.0 < y <= r as real
  {
    -((-y).Floor)
  }

  /** int(math.ceil(x / 10.0)) * 10 — the bucket that replaces a credit score. */
  function CreditBucket(x: real): (r: int)
    ensures r % 10 == 0
    ensures x <= r as real < x + 10.0
  {
    Ceil(x / 10.0) * 10
  }

  /** The credit bucket is the LEAST multiple of ten that is not below the score. */
  lemma CreditBucketIsLeast(x: real, m: int)
    requires m % 10 == 0 && x <= m as real
    ensures CreditBucket(x) <= m
  {
    var r := CreditBucket(x);
    assert r == (r / 10) * 10 && m == (m / 10) * 10;
    assert (r / 10 - 1) * 10 < m;
  }

  /** Bucketing a value that is already a bucket changes nothing. */
  lemma CreditBucketIdempotent(x: real)
    ensures CreditBucket(CreditBucket(x) as real) == CreditBucket(x)
  {
    var r := CreditBucket(x);
    var r2 := CreditBucket(r as real);
    CreditBucketIsLeast(r as real, r);
    assert r <= r2 < r + 10;
    assert r2 == (r2 / 10) * 10 && r == (r / 10) * 10;
  }

  /** A value is a whole multiple of ten, as every bucketed credit score is. */
  predicate IsCreditBucket(v: real)
  {
    v.Floor as real == v && v.Floor % 10 == 0
  }

  /** A score within a limit that is itself a multiple of ten keeps its bucket
      within that limit, so every bucket of a cleaned score is at most 1000. */
  lemma CreditBucketWithin(x: real, limit: int)
    requires limit % 10 == 0 && x <= limit as real
    ensures CreditBucket(x) <= limit
    ensures 0.0 < x ==> 10 <= CreditBucket(x)
  {
    CreditBucketIsLeast(x, limit);
    var r := CreditBucket(x);
    if 0.0 < x {
      assert r == (r / 10) * 10 && 0 < r;
    }
  }

  /** 31 goes to 40, 30 stays 30, 30.1 goes to 40. */
  lemma CreditBucketExamples()
    ensures CreditBucket(31.0) == 40
    ensures CreditBucket(30.0) == 30
    ensures CreditBucket(30.1) == 40
  {
    assert (-3.1).Floor == -4;
    assert (-3.0).Floor == -3;
    assert (-3.01).Floor == -4;
  }

  /** Python's built-in round on a float: the nearest integer, ties to the even one. */
  function RoundHalfEven(y: real): (r: int)
    ensures y - 0.5 <= r as real <= y + 0.5
    ensures (r as real == y - 0.5 || r as real == y + 0.5) ==> r % 2 == 0
  {
    var f := y.Floor;
    var frac := y - f as real;
    if frac < 0.5 then f
    else if frac > 0.5 then f + 1
    else if f % 2 == 0 then f
    else f + 1
  }

  /** The two properties in RoundHalfEven's contract determine its result. */
  lemma RoundHalfEvenUnique(y: real, n: int)
    requires y - 0.5 <= n as real <= y + 0.5
    requires (n as real == y - 0.5 || n as real == y + 0.5) ==> n % 2 == 0
    ensures n == RoundHalfEven(y)
  {
  }

  /** Rounding an integer gives it back. */
  lemma RoundHalfEvenOfInteger(n: int)
    ensures RoundHalfEven(n as real) == n
  {
    RoundHalfEvenUnique(n as real, n);
  }

  /** round(x * 2) / 2 — the bucket that replaces a licence length. */
  function LicenceBucket(x: real): (r: real)
    ensures IsHalfUnit(r)
    ensures x - 0.25 <= r <= x + 0.25
  {
    RoundHalfEven(x * 2.0) as real / 2.0
  }

  /** A value is a whole number of half units. */
  predicate IsHalfUnit(v: real)
  {
    (2.0 * v).Floor as real == 2.0 * v
  }

  /** The licence bucket is a multiple of one half within a quarter of the
      input; when the input lies exactly between two halves, the bucket is the
      one whose double is even. */
  lemma LicenceBucketNearest(x: real)
    ensures IsHalfUnit(LicenceBucket(x))
    ensures x - 0.25 <= LicenceBucket(x) <= x + 0.25
    ensures (LicenceBucket(x) == x - 0.25 || LicenceBucket(x) == x + 0.25) ==>
              (2.0 * LicenceBucket(x)).Floor % 2 == 0
  {
    var n := RoundHalfEven(x * 2.0);
    assert 2.0 * LicenceBucket(x) == n as real;
  }

  /** Bucketing a licence length twice is the same as once. */
  lemma LicenceBucketIdempotent(x: real)
    ensures LicenceBucket(LicenceBucket(x)) == LicenceBucket(x)
  {
    var n := RoundHalfEven(x * 2.0);
    assert LicenceBucket(x) * 2.0 == n as real;
    RoundHalfEvenOfInteger(n);
  }

  /** Ties go to the even double: 1.25 goes to 1.0, 1.75 to 2.0; 0.3 goes to 0.5. */
  lemma LicenceBucketExamples()
    ensures LicenceBucket(1.25) == 1.0
    ensures LicenceBucket(1.75) == 2.0
    ensures LicenceBucket(0.3) == 0.5
  {
    RoundHalfEvenUnique(2.5, 2);
    RoundHalfEvenUnique(3.5, 4);
    RoundHalfEvenUnique(0.6, 1);
  }
}

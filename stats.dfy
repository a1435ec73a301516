/**
 * The result statistics computed by the latency harness once the measurement
 * loop has exited (src/e2e.cpp:186-206): the samples are sorted, their mean is
 * taken by truncating integer division, the squared deviations from that mean
 * are summed, and five cut points are read from the sorted samples by integer
 * index arithmetic. Samples are unbounded integers (nanoseconds).
 */
module Stats {
  import opened Wrappers

  // ---------------------------------------------------------------------------
  // Specification functions

  /** Sum of the samples, accumulated front to back as the source's loop does. */
  function Sum(s: seq<int>): (r: int)
    ensures (forall k :: 0 <= k < |s| ==> s[k] >= 0) ==> r >= 0
    ensures (forall k :: 0 <= k < |s| ==> s[k] <= 0) ==> r <= 0
  {
    if s == [] then 0 else Sum(s[..|s| - 1]) + s[|s| - 1]
  }

  /** Sum of the squared differences between each sample and `mean`. */
  function SquaredDeviations(s: seq<int>, mean: int): (r: int)
    ensures r >= 0
    ensures r == 0 <==> forall k :: 0 <= k < |s| ==> s[k] == mean
  {
    if s == [] then 0
    else
      var diff := s[|s| - 1] - mean;
      SquareIsZeroOnlyAtZero(diff);
      SquaredDeviations(s[..|s| - 1], mean) + diff * diff
  }

  lemma SquareIsZeroOnlyAtZero(x: int)
    ensures x * x >= 0
    ensures x * x == 0 <==> x == 0
  {
    if x > 0 {
      assert x * x >= x;
    } else if x < 0 {
      assert x * x >= -x;
    }
  }

  /** C++ signed division, which truncates toward zero. */
  function TruncDiv(a: int, n: int): (q: int)
    requires n > 0
    ensures var rem := a - q * n;
      -n < rem < n && (a >= 0 ==> rem >= 0) && (a < 0 ==> rem <= 0)
  {
    if a >= 0 then a / n
    else
      var b := -a;
      assert b == (b / n) * n + b % n;
      -(b / n)
  }

  function Min(s: seq<int>): (m: int)
    requires |s| > 0
    ensures m in s
    ensures forall k :: 0 <= k < |s| ==> m <= s[k]
  {
    if |s| == 1 then s[0]
    else
      var rest := Min(s[1..]);
      if s[0] <= rest then s[0] else rest
  }

  function Max(s: seq<int>): (m: int)
    requires |s| > 0
    ensures m in s
    ensures forall k :: 0 <= k < |s| ==> s[k] <= m
  {
    if |s| == 1 then s[0]
    else
      var rest := Max(s[1..]);
      if s[0] >= rest then s[0] else rest
  }

  predicate Sorted(s: seq<int>)
  {
    forall i, j :: 0 <= i < j < |s| ==> s[i] <= s[j]
  }

  /**
   * The population variance, `sum / durations.size()` with a non-negative sum:
   * the value whose square root the source prints as the deviation.
   */
  function Variance(squaredDeviations: int, size: int): (v: int)
    requires squaredDeviations >= 0 && size > 0
    ensures 0 <= v <= squaredDeviations
    ensures size == 1 ==> v == squaredDeviations
  {
    assert size * squaredDeviations == squaredDeviations + (size - 1) * squaredDeviations;
    assert (size - 1) * squaredDeviations >= 0;
    FloorDivBetween(squaredDeviations, size, 0, squaredDeviations);
    squaredDeviations / size
  }

  // ---------------------------------------------------------------------------
  // Sorting: the effect of std::sort over the samples

  /** Inserts `x` into a sorted sequence, keeping it sorted. */
  function Insert(x: int, s: seq<int>): (r: seq<int>)
    requires Sorted(s)
    ensures |r| == |s| + 1
    ensures r[0] == if s == [] || x <= s[0] then x else s[0]
    ensures Sorted(r)
    ensures multiset(r) == multiset(s) + multiset{x}
  {
    if s == [] || x <= s[0] then [x] + s
    else
      assert s == [s[0]] + s[1..];
      [s[0]] + Insert(x, s[1..])
  }

  /** A sorted permutation of the samples: what std::sort leaves behind. */
  function SortSeq(s: seq<int>): (r: seq<int>)
    ensures Sorted(r)
    ensures multiset(r) == multiset(s)
    ensures |r| == |s|
  {
    if s == [] then []
    else
      assert s == [s[0]] + s[1..];
      Insert(s[0], SortSeq(s[1..]))
  }

  // ---------------------------------------------------------------------------
  // The mean lies between the smallest and the largest sample

  lemma {:induction false} SumBetween(s: seq<int>, lo: int, hi: int)
    requires forall k :: 0 <= k < |s| ==> lo <= s[k] <= hi
    ensures |s| * lo <= Sum(s) <= |s| * hi
  {
    if s != [] {
      var init, last := s[..|s| - 1], s[|s| - 1];
      assert Sum(s) == Sum(init) + last;
      assert lo <= last <= hi;
      assert forall k :: 0 <= k < |init| ==> init[k] == s[k];
      SumBetween(init, lo, hi);
      MulSucc(|init|, lo);
      MulSucc(|init|, hi);
    }
  }

  lemma MulSucc(n: int, x: int)
    ensures (n + 1) * x == n * x + x
  {
  }

  lemma FloorDivBetween(b: int, n: int, lo: int, hi: int)
    requires n > 0
    requires n * lo <= b <= n * hi
    ensures lo <= b / n <= hi
  {
    var q := b / n;
    assert n * q <= b < n * q + n;
    assert n * lo < n * (q + 1);
    MulCancel(n, lo, q + 1);
    MulCancel(n, q, hi + 1);
  }

  lemma MulCancel(n: int, x: int, y: int)
    requires n > 0
    requires n * x < n * y
    ensures x < y
  {
    assert n * y - n * x == n * (y - x);
  }

  lemma TruncDivBetween(a: int, n: int, lo: int, hi: int)
    requires n > 0
    requires n * lo <= a <= n * hi
    ensures lo <= TruncDiv(a, n) <= hi
  {
    if a >= 0 {
      FloorDivBetween(a, n, lo, hi);
    } else {
      assert n * -hi == -(n * hi) && n * -lo == -(n * lo);
      FloorDivBetween(-a, n, -hi, -lo);
    }
  }

  /**
   * The truncated mean of a non-empty sample set is at least its smallest and
   * at most its largest sample.
   */
  lemma {:induction false} MeanWithinSamples(s: seq<int>)
    requires |s| > 0
    ensures Min(s) <= TruncDiv(Sum(s), |s|) <= Max(s)
  {
    SumBetween(s, Min(s), Max(s));
    TruncDivBetween(Sum(s), |s|, Min(s), Max(s));
  }

  // ---------------------------------------------------------------------------
  // Percentile cut points

  /** Indices of the 50th, 75th, 90th and 99th percentile and of the worst sample. */
  datatype CutIndices = CutIndices(p50: nat, p75: nat, p90: nat, p99: nat, worst: nat)

  /**
   * The five indices the report reads, for `size` samples. They are in range
   * and non-decreasing whenever there is at least one sample.
   */
  function Cuts(size: nat): (c: CutIndices)
    requires size >= 1
    ensures c.p50 <= c.p75 <= c.p90 <= c.p99 <= c.worst < size
    ensures c.worst == size - 1
  {
    var c := CutIndices(size / 2, size * 3 / 4, size * 9 / 10, size * 99 / 100, size - 1);
    FloorDivBetween(size * 3, 4, c.p50, size);
    FloorDivBetween(size * 9, 10, c.p75, size);
    FloorDivBetween(size * 99, 100, c.p90, size);
    MulCancel(100, c.p99, size);
    c
  }

  /** In sorted samples the five cut points are ordered and the last is the maximum. */
  lemma CutPointsOrdered(s: seq<int>)
    requires |s| >= 1 && Sorted(s)
    ensures var c := Cuts(|s|);
      s[c.p50] <= s[c.p75] <= s[c.p90] <= s[c.p99] <= s[c.worst] == Max(s)
  {
    var c := Cuts(|s|);
    OrderedAt(s, c);
    SortedMaxIsLast(s);
  }

  lemma OrderedAt(s: seq<int>, c: CutIndices)
    requires Sorted(s) && c.p50 <= c.p75 <= c.p90 <= c.p99 <= c.worst < |s|
    ensures s[c.p50] <= s[c.p75] <= s[c.p90] <= s[c.p99] <= s[c.worst]
  {
    SortedAt(s, c.p50, c.p75);
    SortedAt(s, c.p75, c.p90);
    SortedAt(s, c.p90, c.p99);
    SortedAt(s, c.p99, c.worst);
  }

  lemma SortedAt(s: seq<int>, a: nat, b: nat)
    requires Sorted(s) && a <= b < |s|
    ensures s[a] <= s[b]
  {
  }

  lemma SortedMaxIsLast(s: seq<int>)
    requires |s| >= 1 && Sorted(s)
    ensures Max(s) == s[|s| - 1]
  {
    var m := Max(s);
    var k :| 0 <= k < |s| && s[k] == m;
    assert s[k] <= s[|s| - 1];
  }

  // ---------------------------------------------------------------------------
  // The report

  /** What the harness prints: mean, deviation and the five cut points. */
  datatype Summary = Summary(
    mean: int,
    squaredDeviations: int,
    variance: int,
    p50: int, p75: int, p90: int, p99: int, worst: int)

  /** Reporting over an empty sample set is an error, not a division by zero. */
  datatype ReportError = NoSamples

  /**
   * The statistics block: two accumulation loops and five indexed reads.
   * The mean divides with C++'s truncating signed division; the variance
   * (the value whose square root the source prints as the deviation) divides
   * the non-negative squared-deviation sum.
   */
  method Summarize(d: seq<int>) returns (r: Result<Summary, ReportError>)
    ensures d == [] <==> r == Failure(NoSamples)
    ensures r.Success? <==> d != []
    ensures r.Success? ==>
      var m := r.value;
      && m.mean == TruncDiv(Sum(d), |d|)
      && Min(d) <= m.mean <= Max(d)
      && m.squaredDeviations == SquaredDeviations(d, m.mean)
      && m.variance == Variance(m.squaredDeviations, |d|)
      && var c := Cuts(|d|);
      && m.p50 == d[c.p50] && m.p75 == d[c.p75] && m.p90 == d[c.p90]
      && m.p99 == d[c.p99] && m.worst == d[c.worst]
    ensures r.Success? && Sorted(d) ==>
      var m := r.value;
      m.p50 <= m.p75 <= m.p90 <= m.p99 <= m.worst == Max(d)
  {
    if |d| == 0 {
      return Failure(NoSamples);
    }
    var n := |d|;
    var sum := SumOf(d);
    var mean := TruncDiv(sum, n);
    MeanWithinSamples(d);
    var deviations := DeviationsOf(d, mean);
    var c := Cuts(n);
    if Sorted(d) {
      CutPointsOrdered(d);
    }
    r := Success(Summary(mean, deviations, Variance(deviations, n),
                         d[c.p50], d[c.p75], d[c.p90], d[c.p99], d[c.worst]));
  }

  /** The first accumulation loop: `sum += dur` over the samples. */
  method SumOf(d: seq<int>) returns (sum: int)
    ensures sum == Sum(d)
    ensures |d| > 0 ==> |d| * Min(d) <= sum <= |d| * Max(d)
  {
    sum := 0;
    for k := 0 to |d|
      invariant sum == Sum(d[..k])
    {
      assert d[..k + 1][..k] == d[..k];
      sum := sum + d[k];
    }
    assert d[..|d|] == d;
    if |d| > 0 {
      SumBetween(d, Min(d), Max(d));
    }
  }

  /** The second accumulation loop: `sum += diff * diff` with `diff = dur - mean`. */
  method DeviationsOf(d: seq<int>, mean: int) returns (sum: int)
    ensures sum == SquaredDeviations(d, mean)
    ensures sum >= 0 && (sum == 0 <==> forall k :: 0 <= k < |d| ==> d[k] == mean)
  {
    sum := 0;
    for k := 0 to |d|
      invariant sum == SquaredDeviations(d[..k], mean)
    {
      assert d[..k + 1][..k] == d[..k];
      var diff := d[k] - mean;
      sum := sum + diff * diff;
    }
    assert d[..|d|] == d;
  }

  // ---------------------------------------------------------------------------
  // The statistics as the source writes them

  const Two63: int := 0x8000_0000_0000_0000
  const Two64: int := 0x1_0000_0000_0000_0000

  /**
   * `sum / durations.size()` as written: an int64 divided by a size_t. The
   * usual arithmetic conversions turn `sum` into an unsigned 64-bit value,
   * the quotient is unsigned, and it is stored back into an int64 (modulo 2^64).
   */
  function MeanAsWritten(sum: int, size: int): (q: int)
    requires -Two63 <= sum < Two63
    requires 0 < size < Two64
    ensures -Two63 <= q < Two63
  {
    var unsigned := sum % Two64;
    var quotient := unsigned / size;
    if quotient >= Two63 then quotient - Two64 else quotient
  }

  /** For a non-negative sum the conversion is harmless: the result is the truncated mean. */
  lemma MeanAsWrittenAgreesWhenNonNegative(sum: int, size: int)
    requires 0 <= sum < Two63
    requires 0 < size < Two64
    ensures MeanAsWritten(sum, size) == TruncDiv(sum, size)
  {
    assert sum % Two64 == sum;
    assert sum / size <= sum;
  }

  /**
   * Two samples -2 and 0 ns: the source's mean is 2^63 - 1, far above the
   * largest sample, where the truncated mean is -1.
   */
  lemma MeanAsWrittenLeavesSampleRange()
    ensures Sum([-2, 0]) == -2
    ensures var d := [-2, 0];
      && MeanAsWritten(Sum(d), |d|) == Two63 - 1
      && MeanAsWritten(Sum(d), |d|) > Max(d)
      && TruncDiv(Sum(d), |d|) == -1
  {
    var d := [-2, 0];
    assert d[..1] == [-2] && [-2][..0] == [];
    assert Sum(d) == -2;
    assert Max(d) == 0 by { assert Max(d[1..]) == 0; }
  }

  /** `durations.size() - 1` as written: size_t arithmetic, so 0 - 1 wraps around. */
  function WorstIndexAsWritten(size: nat): (k: int)
    requires size < Two64
    ensures 0 <= k < Two64
    ensures size >= 1 ==> k == size - 1
  {
    (size - 1) % Two64
  }

  /**
   * With no samples (zero iterations, or a malformed first reply) the source
   * reads index 2^64 - 1 of an empty vector, besides dividing by zero.
   */
  lemma EmptyReportReadsPastTheEnd()
    ensures WorstIndexAsWritten(0) == Two64 - 1
    ensures var empty: seq<int> := []; WorstIndexAsWritten(0) >= |empty|
  {
  }
}

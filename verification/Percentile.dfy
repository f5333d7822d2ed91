/** Benchmark summaries: interpolated order statistics over the recorded latencies. */
module Percentile {

  function Insert(x: real, s: seq<real>): (r: seq<real>)
    ensures |r| == |s| + 1
  {
    if s == [] || x <= s[0] then [x] + s else [s[0]] + Insert(x, s[1..])
  }

  /** `sorted(values)`. */
  function Sort(values: seq<real>): (r: seq<real>)
    ensures |r| == |values|
  {
    if values == [] then [] else Insert(values[0], Sort(values[1..]))
  }

  ghost predicate IsSorted(s: seq<real>) {
    forall i, j | 0 <= i < j < |s| :: s[i] <= s[j]
  }

  /** The value at a fractional position of an ordered list. */
  function Interpolate(ordered: seq<real>, index: real): real
    requires 0.0 <= index <= (|ordered| - 1) as real
  {
    var lower := index.Floor;
    var upper := if lower + 1 <= |ordered| - 1 then lower + 1 else |ordered| - 1;
    if lower == upper then ordered[lower]
    else
      var weight := index - lower as real;
      ordered[lower] * (1.0 - weight) + ordered[upper] * weight
  }

  lemma Product(x: real, y: real)
    requires x >= 0.0 && y >= 0.0
    ensures x * y >= 0.0
  {
  }

  lemma PositionInRange(n: nat, percentage: real)
    requires n > 0 && 0.0 <= percentage <= 100.0
    ensures 0.0 <= (n - 1) as real * percentage / 100.0 <= (n - 1) as real
  {
    var m := (n - 1) as real;
    Product(m, percentage);
    Product(m, 100.0 - percentage);
    assert m * 100.0 - m * percentage == m * (100.0 - percentage);
  }

  /** Where a percentage falls in an ordered list of `n` values. */
  function Position(n: nat, percentage: real): (index: real)
    requires n > 0 && 0.0 <= percentage <= 100.0
    ensures 0.0 <= index <= (n - 1) as real
  {
    PositionInRange(n, percentage);
    (n - 1) as real * percentage / 100.0
  }

  function Percentile(values: seq<real>, percentage: real): real
    requires 0.0 <= percentage <= 100.0
  {
    if values == [] then 0.0 else Interpolate(Sort(values), Position(|values|, percentage))
  }

  // ---------------------------------------------------------------------------
  // Sorting
  // ---------------------------------------------------------------------------

  lemma {:induction false} InsertKeeps(x: real, s: seq<real>)
    ensures multiset(Insert(x, s)) == multiset(s) + multiset{x}
  {
    if s != [] && !(x <= s[0]) {
      assert s == [s[0]] + s[1..];
      InsertKeeps(x, s[1..]);
    }
  }

  lemma {:induction false} InsertSorts(x: real, s: seq<real>)
    requires IsSorted(s)
    ensures IsSorted(Insert(x, s))
  {
    if s != [] && !(x <= s[0]) {
      var rest := Insert(x, s[1..]);
      InsertSorts(x, s[1..]);
      InsertKeeps(x, s[1..]);
      assert Insert(x, s) == [s[0]] + rest;
      hide Insert;
      HeadBelow(s[0], x, s[1..], rest);
    }
  }

  lemma HeadBelow(head: real, x: real, s: seq<real>, rest: seq<real>)
    requires head <= x && (forall i | 0 <= i < |s| :: head <= s[i])
    requires multiset(rest) == multiset(s) + multiset{x}
    ensures forall j | 0 <= j < |rest| :: head <= rest[j]
  {
    forall j | 0 <= j < |rest|
      ensures head <= rest[j]
    {
      assert rest[j] in multiset(rest);
      assert rest[j] == x || rest[j] in s;
    }
  }

  lemma {:induction false} SortSorts(values: seq<real>)
    ensures IsSorted(Sort(values)) && multiset(Sort(values)) == multiset(values)
  {
    if values != [] {
      assert values == [values[0]] + values[1..];
      SortSorts(values[1..]);
      InsertSorts(values[0], Sort(values[1..]));
      InsertKeeps(values[0], Sort(values[1..]));
    }
  }

  lemma HeadIsLeast(a: seq<real>, b: seq<real>)
    requires IsSorted(b) && a != [] && multiset(a) == multiset(b)
    ensures b != [] && b[0] <= a[0]
  {
    assert a[0] in multiset(a);
    assert a[0] in b;
  }

  lemma TailMultiset(a: seq<real>)
    requires a != []
    ensures multiset(a[1..]) == multiset(a) - multiset{a[0]}
  {
    assert a == [a[0]] + a[1..];
  }

  /** There is only one way to put a collection in order. */
  lemma {:induction false} SortedIsUnique(a: seq<real>, b: seq<real>)
    requires IsSorted(a) && IsSorted(b) && multiset(a) == multiset(b)
    ensures a == b
  {
    assert |multiset(a)| == |multiset(b)|;
    if a != [] {
      HeadIsLeast(a, b);
      HeadIsLeast(b, a);
      TailMultiset(a);
      TailMultiset(b);
      SortedIsUnique(a[1..], b[1..]);
      assert a == [a[0]] + a[1..] && b == [b[0]] + b[1..];
    }
  }

  /** Each element is at most its counterpart. */
  ghost predicate Below(a: seq<real>, b: seq<real>) {
    |a| == |b| && forall i | 0 <= i < |a| :: a[i] <= b[i]
  }

  lemma {:induction false} InsertMonotone(x: real, y: real, s: seq<real>, t: seq<real>)
    requires x <= y && Below(s, t) && IsSorted(s) && IsSorted(t)
    ensures Below(Insert(x, s), Insert(y, t))
    decreases |s|
  {
    if s != [] {
      InsertMonotone(x, y, s[1..], t[1..]);
      if x <= s[0] && !(y <= t[0]) {
        InsertHead(x, s);
        InsertMonotone(s[0], y, s[1..], t[1..]);
      }
    }
  }

  lemma InsertHead(x: real, s: seq<real>)
    requires s != [] && IsSorted(s)
    ensures Insert(s[0], s[1..]) == s
  {
    if |s| > 1 {
      assert s[0] <= s[1];
    }
    assert s == [s[0]] + s[1..];
  }

  /** Raising values raises every order statistic. */
  lemma {:induction false} SortMonotone(a: seq<real>, b: seq<real>)
    requires Below(a, b)
    ensures Below(Sort(a), Sort(b))
  {
    if a != [] {
      SortMonotone(a[1..], b[1..]);
      SortSorts(a[1..]);
      SortSorts(b[1..]);
      InsertMonotone(a[0], b[0], Sort(a[1..]), Sort(b[1..]));
    }
  }

  // ---------------------------------------------------------------------------
  // Interpolation
  // ---------------------------------------------------------------------------

  lemma Blend(x: real, y: real, w: real)
    requires x <= y && 0.0 <= w <= 1.0
    ensures x <= x * (1.0 - w) + y * w <= y
  {
    Product(y - x, w);
    Product(y - x, 1.0 - w);
    assert x * (1.0 - w) + y * w == x + (y - x) * w;
    assert y - (x + (y - x) * w) == (y - x) * (1.0 - w);
  }

  lemma BlendMonotone(x: real, y: real, w: real, x': real, y': real, w': real)
    requires x <= x' && y <= y' && x' <= y' && 0.0 <= w <= w' <= 1.0
    ensures x * (1.0 - w) + y * w <= x' * (1.0 - w') + y' * w'
  {
    Product(x' - x, 1.0 - w);
    Product(y' - y, w);
    Product(y' - x', w' - w);
    assert x' * (1.0 - w) - x * (1.0 - w) == (x' - x) * (1.0 - w);
    assert y' * w - y * w == (y' - y) * w;
    assert x' * (1.0 - w') + y' * w' - (x' * (1.0 - w) + y' * w) == (y' - x') * (w' - w);
  }

  /** The value lies between its two neighbours. */
  lemma Between(s: seq<real>, index: real)
    requires IsSorted(s) && 0.0 <= index <= (|s| - 1) as real
    ensures var lower := index.Floor;
            s[lower] <= Interpolate(s, index) <= s[if lower + 1 <= |s| - 1 then lower + 1 else lower]
  {
    var lower := index.Floor;
    if lower + 1 <= |s| - 1 {
      Blend(s[lower], s[lower + 1], index - lower as real);
    }
  }

  lemma InterpolateMonotone(s: seq<real>, i: real, j: real)
    requires IsSorted(s) && 0.0 <= i <= j <= (|s| - 1) as real
    ensures Interpolate(s, i) <= Interpolate(s, j)
  {
    var a, b := i.Floor, j.Floor;
    if a == b {
      if a + 1 <= |s| - 1 {
        BlendMonotone(s[a], s[a + 1], i - a as real, s[a], s[a + 1], j - a as real);
      }
    } else {
      Between(s, i);
      Between(s, j);
      assert a + 1 <= b;
    }
  }

  lemma InterpolateDominance(s: seq<real>, t: seq<real>, i: real)
    requires Below(s, t) && IsSorted(t) && 0.0 <= i <= (|s| - 1) as real
    ensures Interpolate(s, i) <= Interpolate(t, i)
  {
    var a := i.Floor;
    if a + 1 <= |s| - 1 {
      var w := i - a as real;
      assert t[a] <= t[a + 1];
      BlendMonotone(s[a], s[a + 1], w, t[a], t[a + 1], w);
      assert Interpolate(t, i) == t[a] * (1.0 - w) + t[a + 1] * w;
    }
  }

  // ---------------------------------------------------------------------------
  // Percentiles
  // ---------------------------------------------------------------------------

  lemma PositionMonotone(n: nat, p: real, q: real)
    requires n > 0 && 0.0 <= p <= q <= 100.0
    ensures Position(n, p) <= Position(n, q)
  {
    var m := (n - 1) as real;
    Product(m, q - p);
    assert m * q - m * p == m * (q - p);
  }

  lemma PercentileMonotone(values: seq<real>, p: real, q: real)
    requires 0.0 <= p <= q <= 100.0
    ensures Percentile(values, p) <= Percentile(values, q)
  {
    if values != [] {
      hide Interpolate, Position, Sort;
      SortSorts(values);
      PositionMonotone(|values|, p, q);
      InterpolateMonotone(Sort(values), Position(|values|, p), Position(|values|, q));
    }
  }

  /** Replacing every latency by one at least as large never lowers a percentile, in whatever order the
      latencies were recorded. */
  lemma PercentileDominance(a: seq<real>, b: seq<real>, a': seq<real>, b': seq<real>, p: real)
    requires 0.0 <= p <= 100.0 && Below(a, b)
    requires multiset(a') == multiset(a) && multiset(b') == multiset(b)
    ensures Percentile(a', p) <= Percentile(b', p)
  {
    PercentileIgnoresOrder(a, a', p);
    PercentileIgnoresOrder(b, b', p);
    if a != [] {
      hide Interpolate, Position, Sort;
      SortMonotone(a, b);
      SortSorts(b);
      InterpolateDominance(Sort(a), Sort(b), Position(|a|, p));
    }
  }

  lemma PercentileIgnoresOrder(a: seq<real>, b: seq<real>, p: real)
    requires 0.0 <= p <= 100.0 && multiset(a) == multiset(b)
    ensures Percentile(a, p) == Percentile(b, p)
  {
    hide Interpolate, Position, Sort;
    assert |multiset(a)| == |multiset(b)|;
    SortSorts(a);
    SortSorts(b);
    SortedIsUnique(Sort(a), Sort(b));
  }

  // ---------------------------------------------------------------------------
  // The summary
  // ---------------------------------------------------------------------------

  datatype BenchmarkResult = BenchmarkResult(
    totalRequests: nat, successfulRequests: nat, failedRequests: nat, errorRatePercent: real,
    cacheHits: nat, cacheMisses: nat, cacheHitRatePercent: real,
    p50: real, p95: real, p99: real, min: real, max: real, throughput: real, duration: real)

  function Least(values: seq<real>): real
    requires values != []
  {
    if |values| == 1 then values[0]
    else var rest := Least(values[1..]); if rest < values[0] then rest else values[0]
  }

  function Greatest(values: seq<real>): real
    requires values != []
  {
    if |values| == 1 then values[0]
    else var rest := Greatest(values[1..]); if rest > values[0] then rest else values[0]
  }

  function CountTrue(successes: seq<bool>): (n: nat)
    ensures n <= |successes|
  {
    if successes == [] then 0 else CountTrue(successes[1..]) + if successes[0] then 1 else 0
  }

  function SharePercent(part: nat, whole: nat): real {
    if whole != 0 then part as real / whole as real * 100.0 else 0.0
  }

  function PerSecond(total: nat, duration: real): real {
    if duration > 0.0 then total as real / duration else 0.0
  }

  function BuildResult(
    latencies: seq<real>, successes: seq<bool>, hits: nat, misses: nat, duration: real): BenchmarkResult {
    var total, successful := |successes|, CountTrue(successes);
    BenchmarkResult(
      total, successful, total - successful,
      SharePercent(total - successful, total),
      hits, misses,
      SharePercent(hits, hits + misses),
      Percentile(latencies, 50.0), Percentile(latencies, 95.0), Percentile(latencies, 99.0),
      if latencies != [] then Least(latencies) else 0.0,
      if latencies != [] then Greatest(latencies) else 0.0,
      PerSecond(total, duration),
      duration)
  }

  lemma {:induction false} ExtremesOfSort(values: seq<real>)
    requires values != []
    ensures Sort(values)[0] == Least(values) && Sort(values)[|values| - 1] == Greatest(values)
  {
    var s := Sort(values);
    SortSorts(values);
    ExtremesBound(values);
    hide Sort, Least, Greatest;
    assert Least(values) in multiset(values) && Greatest(values) in multiset(values);
    assert Least(values) in s && Greatest(values) in s;
    assert s[0] in multiset(s) && s[|values| - 1] in multiset(s);
    assert s[0] in values && s[|values| - 1] in values;
  }

  lemma {:induction false} ExtremesBound(values: seq<real>)
    requires values != []
    ensures Least(values) in values && Greatest(values) in values
    ensures forall v | v in values :: Least(values) <= v <= Greatest(values)
  {
    if |values| > 1 {
      ExtremesBound(values[1..]);
      assert forall v | v in values :: v == values[0] || v in values[1..];
    }
  }

  /** Percentiles of a non-empty run are ordered and lie within its extremes. */
  lemma SummaryIsOrdered(latencies: seq<real>, successes: seq<bool>, hits: nat, misses: nat, duration: real)
    requires latencies != []
    ensures var r := BuildResult(latencies, successes, hits, misses, duration);
            r.min <= r.p50 <= r.p95 <= r.p99 <= r.max
  {
    hide Percentile, Least, Greatest, CountTrue;
    PercentileMonotone(latencies, 0.0, 50.0);
    PercentileMonotone(latencies, 50.0, 95.0);
    PercentileMonotone(latencies, 95.0, 99.0);
    PercentileMonotone(latencies, 99.0, 100.0);
    EndPercentiles(latencies);
  }

  /** The 0th and 100th percentiles are the extremes. */
  lemma EndPercentiles(latencies: seq<real>)
    requires latencies != []
    ensures Percentile(latencies, 0.0) == Least(latencies) && Percentile(latencies, 100.0) == Greatest(latencies)
  {
    var n := |latencies|;
    ExtremesOfSort(latencies);
    hide Sort, Least, Greatest;
    assert Position(n, 0.0) == 0.0;
    assert Position(n, 100.0) == (n - 1) as real;
    assert ((n - 1) as real).Floor == n - 1;
  }

  /** Successes and failures add up, and both rates are percentages. */
  lemma SummaryAddsUp(latencies: seq<real>, successes: seq<bool>, hits: nat, misses: nat, duration: real)
    ensures var r := BuildResult(latencies, successes, hits, misses, duration);
            && r.successfulRequests + r.failedRequests == r.totalRequests == |successes|
            && 0.0 <= r.errorRatePercent <= 100.0 && 0.0 <= r.cacheHitRatePercent <= 100.0
  {
    hide Percentile, Least, Greatest, SharePercent, PerSecond;
    Share(|successes| - CountTrue(successes), |successes|);
    Share(hits, hits + misses);
  }

  lemma Share(part: nat, whole: nat)
    requires part <= whole
    ensures 0.0 <= SharePercent(part, whole) <= 100.0
  {
    if whole != 0 {
      var x, y := part as real, whole as real;
      var q := x / y;
      assert q * y == x;
      assert 1.0 * y == y && 0.0 * y == 0.0;
      Cancel(q, 1.0, y);
      Cancel(0.0, q, y);
    }
  }

  lemma Cancel(a: real, b: real, y: real)
    requires y > 0.0 && a * y <= b * y
    ensures a <= b
  {
    assert (b - a) * y == b * y - a * y;
  }

  // ---------------------------------------------------------------------------
  // Interpolation, by what it does between two order statistics
  // ---------------------------------------------------------------------------

  /** From position k to k + 1 the value runs along a straight line. */
  lemma CellIsStraight(s: seq<real>, k: nat, index: real)
    requires k + 1 < |s| && k as real <= index <= (k + 1) as real
    ensures 0.0 <= index <= (|s| - 1) as real
    ensures Interpolate(s, index) == s[k] + (s[k + 1] - s[k]) * (index - k as real)
  {
    var w := index - k as real;
    if index == (k + 1) as real {
      assert index.Floor == k + 1;
      assert k + 2 < |s| ==> s[k + 1] * (1.0 - 0.0) + s[k + 2] * 0.0 == s[k + 1];
    } else {
      assert index.Floor == k;
      assert s[k] * (1.0 - w) + s[k + 1] * w == s[k] + (s[k + 1] - s[k]) * w;
    }
  }

  /** The percentage of the k-th of n values. */
  function Mark(n: nat, k: nat): (p: real)
    requires k < n && n > 1
    ensures 0.0 <= p <= 100.0
  {
    MarkInRange(n, k);
    100.0 * k as real / (n - 1) as real
  }

  lemma MarkInRange(n: nat, k: nat)
    requires k < n && n > 1
    ensures 0.0 <= 100.0 * k as real / (n - 1) as real <= 100.0
  {
    var m, p := (n - 1) as real, 100.0 * k as real / (n - 1) as real;
    assert p * m == 100.0 * k as real;
    Cancel(0.0, p, m);
    Cancel(p, 100.0, m);
  }

  lemma PositionOf(n: nat, p: real)
    requires n > 1 && 0.0 <= p <= 100.0
    ensures Position(n, p) * 100.0 == (n - 1) as real * p
  {
  }

  lemma PositionOfMark(n: nat, k: nat)
    requires k < n && n > 1
    ensures Position(n, Mark(n, k)) == k as real
  {
    var m, p := (n - 1) as real, Mark(n, k);
    PositionOf(n, p);
    assert m * p == 100.0 * k as real;
  }

  /** The percentage k / (n - 1) is the k-th order statistic itself. */
  lemma PercentileAtMark(values: seq<real>, k: nat)
    requires k < |values| && |values| > 1
    ensures Percentile(values, Mark(|values|, k)) == Sort(values)[k]
  {
    hide Sort, Position, Mark;
    PositionOfMark(|values|, k);
    if k + 1 < |values| {
      CellIsStraight(Sort(values), k, k as real);
    } else {
      CellIsStraight(Sort(values), k - 1, k as real);
    }
    hide Interpolate;
  }

  /** A single value is every percentile. */
  lemma PercentileOfOne(x: real, p: real)
    requires 0.0 <= p <= 100.0
    ensures Percentile([x], p) == x
  {
    assert Position(1, p) == 0.0;
  }

  /** Between the marks of two neighbours, halfway in percentage is halfway in value. */
  lemma PercentileAtMidpoint(values: seq<real>, k: nat, p: real, q: real)
    requires k + 1 < |values| && Mark(|values|, k) <= p <= q <= Mark(|values|, k + 1)
    ensures 0.0 <= (p + q) / 2.0 <= 100.0
    ensures Percentile(values, (p + q) / 2.0) == (Percentile(values, p) + Percentile(values, q)) / 2.0
  {
    hide Sort, Interpolate, Mark;
    var n, s, mid := |values|, Sort(values), (p + q) / 2.0;
    PositionOfMark(n, k);
    PositionOfMark(n, k + 1);
    PositionMonotone(n, Mark(n, k), p);
    PositionMonotone(n, p, mid);
    PositionMonotone(n, mid, q);
    PositionMonotone(n, q, Mark(n, k + 1));
    PositionOf(n, p);
    PositionOf(n, mid);
    PositionOf(n, q);
    Halfway((n - 1) as real, p, q);
    hide Position;
    var i, j := Position(n, p), Position(n, q);
    CellIsStraight(s, k, i);
    CellIsStraight(s, k, j);
    CellIsStraight(s, k, Position(n, mid));
    HalfwayUp(s[k], s[k + 1] - s[k], i - k as real, j - k as real, Position(n, mid) - k as real);
  }

  lemma Halfway(m: real, p: real, q: real)
    ensures m * ((p + q) / 2.0) == (m * p + m * q) / 2.0
  {
  }

  lemma HalfwayUp(base: real, slope: real, u: real, v: real, w: real)
    requires w == (u + v) / 2.0
    ensures base + slope * w == ((base + slope * u) + (base + slope * v)) / 2.0
  {
    assert slope * w == (slope * u + slope * v) / 2.0;
  }

  // ---------------------------------------------------------------------------
  // Reflection
  // ---------------------------------------------------------------------------

  function Negated(s: seq<real>): (r: seq<real>)
    ensures |r| == |s|
  {
    seq(|s|, i requires 0 <= i < |s| => -s[i])
  }

  /** Negated, and read backwards. */
  function Flipped(s: seq<real>): (r: seq<real>)
    ensures |r| == |s|
  {
    seq(|s|, i requires 0 <= i < |s| => -s[|s| - 1 - i])
  }

  lemma {:induction false} NegatedCounts(s: seq<real>, x: real)
    ensures multiset(Negated(s))[x] == multiset(s)[-x]
  {
    if s != [] {
      NegatedCounts(s[1..], x);
      assert s == [s[0]] + s[1..];
      assert Negated(s) == [-s[0]] + Negated(s[1..]);
    }
  }

  lemma {:induction false} FlippedCounts(s: seq<real>, x: real)
    ensures multiset(Flipped(s))[x] == multiset(s)[-x]
  {
    if s != [] {
      FlippedCounts(s[1..], x);
      assert s == [s[0]] + s[1..];
      assert Flipped(s) == Flipped(s[1..]) + [-s[0]];
    }
  }

  lemma SortOfNegated(values: seq<real>)
    ensures Sort(Negated(values)) == Flipped(Sort(values))
  {
    hide Sort;
    var a, b := Sort(Negated(values)), Flipped(Sort(values));
    SortSorts(values);
    SortSorts(Negated(values));
    forall x
      ensures multiset(a)[x] == multiset(b)[x]
    {
      NegatedCounts(values, x);
      FlippedCounts(Sort(values), x);
    }
    assert multiset(a) == multiset(b);
    SortedIsUnique(a, b);
  }

  lemma FlippedInterpolate(s: seq<real>, index: real)
    requires 0.0 <= index <= (|s| - 1) as real
    ensures Interpolate(Flipped(s), index) == -Interpolate(s, (|s| - 1) as real - index)
  {
    var n := |s|;
    if n > 1 {
      var k := if index.Floor < n - 1 then index.Floor else n - 2;
      var other := (n - 1) as real - index;
      assert k as real <= index <= (k + 1) as real;
      CellIsStraight(Flipped(s), k, index);
      CellIsStraight(s, n - 2 - k, other);
      hide Interpolate;
      assert other - (n - 2 - k) as real == 1.0 - (index - k as real);
      Mirror(s[n - 2 - k], s[n - 1 - k], index - k as real);
    }
  }

  lemma Mirror(a: real, b: real, w: real)
    ensures -b + (-a - -b) * w == -(a + (b - a) * (1.0 - w))
  {
    assert (b - a) * (1.0 - w) == (b - a) - (b - a) * w;
  }

  /** Turning all values around turns the percentages around. */
  lemma PercentileReflects(values: seq<real>, p: real)
    requires 0.0 <= p <= 100.0
    ensures Percentile(Negated(values), p) == -Percentile(values, 100.0 - p)
  {
    if values != [] {
      hide Sort, Interpolate, Negated, Flipped;
      SortOfNegated(values);
      var n := |values|;
      assert Position(n, 100.0 - p) == (n - 1) as real - Position(n, p) by {
        assert (n - 1) as real * (100.0 - p) == (n - 1) as real * 100.0 - (n - 1) as real * p;
      }
      FlippedInterpolate(Sort(values), Position(n, p));
    }
  }

  // ---------------------------------------------------------------------------
  // The summary, by counting
  // ---------------------------------------------------------------------------

  lemma {:induction false} CountTrueIsCount(successes: seq<bool>)
    ensures CountTrue(successes) == multiset(successes)[true]
    ensures |successes| - CountTrue(successes) == multiset(successes)[false]
  {
    if successes != [] {
      assert successes == [successes[0]] + successes[1..];
      CountTrueIsCount(successes[1..]);
    }
  }

  /** Successes and failures are counted; both rates are shares in percent and the throughput is requests per
      second, each zero where there is nothing to divide by; the extremes are those of the latencies. */
  lemma SummaryLaw(latencies: seq<real>, successes: seq<bool>, hits: nat, misses: nat, duration: real)
    ensures var r, total := BuildResult(latencies, successes, hits, misses, duration), |successes| as real;
            && r.totalRequests == |successes|
            && r.successfulRequests == multiset(successes)[true] && r.failedRequests == multiset(successes)[false]
            && r.cacheHits == hits && r.cacheMisses == misses && r.duration == duration
            && r.errorRatePercent * total == 100.0 * multiset(successes)[false] as real
            && (successes == [] ==> r.errorRatePercent == 0.0)
            && r.cacheHitRatePercent * (hits + misses) as real == 100.0 * hits as real
            && (hits + misses == 0 ==> r.cacheHitRatePercent == 0.0)
            && (if duration > 0.0 then r.throughput * duration == total else r.throughput == 0.0)
            && r.p50 == Percentile(latencies, 50.0) && r.p95 == Percentile(latencies, 95.0)
            && r.p99 == Percentile(latencies, 99.0)
            && (if latencies == [] then r.min == r.max == 0.0
                else r.min in latencies && r.max in latencies && forall v | v in latencies :: r.min <= v <= r.max)
  {
    hide Percentile, Least, Greatest, SharePercent, PerSecond, CountTrue;
    CountTrueIsCount(successes);
    if latencies != [] {
      ExtremesBound(latencies);
    }
    PercentOf(|successes| - CountTrue(successes), |successes|);
    PercentOf(hits, hits + misses);
    SecondsOf(|successes|, duration);
  }

  lemma PercentOf(part: nat, whole: nat)
    requires part <= whole
    ensures SharePercent(part, whole) * whole as real == 100.0 * part as real
    ensures whole == 0 ==> SharePercent(part, whole) == 0.0
  {
    if whole != 0 {
      var q := part as real / whole as real;
      assert q * whole as real == part as real;
    }
  }

  lemma SecondsOf(total: nat, duration: real)
    ensures if duration > 0.0 then PerSecond(total, duration) * duration == total as real
            else PerSecond(total, duration) == 0.0
  {
  }
}

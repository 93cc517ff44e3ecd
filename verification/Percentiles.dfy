/**
 Order statistics of the benchmarks (fedify-sidecar/scripts/benchmark-redpanda-compression-v2.ts and
 fedify-sidecar/scripts/benchmark-opensearch-os4b-batching.ts), over real numbers.
 */
module Percentiles {
  import opened Prelude
  import opened Ordering

  predicate RealLeq(x: real, y: real) {
    x <= y
  }

  function Ascending(values: seq<real>): seq<real> {
    Sort(RealLeq, values)
  }

  function Ceil(x: real): int {
    -((-x).Floor)
  }

  // ----- rounding to six places -----

  const MILLION: real := 1000000.0

  /** Beyond this `toFixed` leaves a number as it is. */
  const FIXED_LIMIT: real := 1000000000000000000000.0

  /** Six decimal places, halves away from zero. */
  function RoundMagnitude(x: real): real
    requires x >= 0.0
  {
    (x * MILLION + 0.5).Floor as real / MILLION
  }

  /** `Number(value.toFixed(6))`. */
  function Round(x: real): real {
    if x >= FIXED_LIMIT || x <= -FIXED_LIMIT then x
    else if x < 0.0 then -RoundMagnitude(-x)
    else RoundMagnitude(x)
  }

  lemma MagnitudeIsMonotone(x: real, y: real)
    requires 0.0 <= x <= y
    ensures 0.0 <= RoundMagnitude(x) <= RoundMagnitude(y)
  {
    assert x * MILLION + 0.5 <= y * MILLION + 0.5;
    assert (x * MILLION + 0.5).Floor <= (y * MILLION + 0.5).Floor;
  }

  lemma MagnitudeStaysBelow(x: real)
    requires 0.0 <= x < FIXED_LIMIT
    ensures RoundMagnitude(x) <= FIXED_LIMIT
  {
    var limit := 1000000000000000000000000000;
    assert x * MILLION + 0.5 < limit as real + 1.0;
    assert (x * MILLION + 0.5).Floor <= limit;
  }

  /** Rounding never reverses an order. */
  lemma RoundIsMonotone(x: real, y: real)
    requires x <= y
    ensures Round(x) <= Round(y)
  {
    hide RoundMagnitude;
    if 0.0 <= x < FIXED_LIMIT {
      MagnitudeStaysBelow(x);
      MagnitudeIsMonotone(x, x);
      if y < FIXED_LIMIT {
        MagnitudeIsMonotone(x, y);
      }
    } else if -FIXED_LIMIT < x < 0.0 {
      MagnitudeStaysBelow(-x);
      MagnitudeIsMonotone(-x, -x);
      if y < 0.0 {
        MagnitudeIsMonotone(-y, -x);
      } else if y < FIXED_LIMIT {
        MagnitudeIsMonotone(y, y);
      }
    } else if -FIXED_LIMIT < y < 0.0 {
      MagnitudeStaysBelow(-y);
    } else if 0.0 <= y < FIXED_LIMIT {
      MagnitudeIsMonotone(y, y);
    }
  }

  lemma MagnitudeIsNearest(x: real)
    requires x >= 0.0
    ensures -0.5 <= RoundMagnitude(x) * MILLION - x * MILLION <= 0.5
  {
    assert RoundMagnitude(x) * MILLION == (x * MILLION + 0.5).Floor as real;
  }

  /** Rounding is symmetric and, below the limit, moves a number by at most half of the sixth place. */
  lemma RoundIsNearest(x: real)
    ensures Round(-x) == -Round(x)
    ensures -FIXED_LIMIT < x < FIXED_LIMIT ==> -0.5 <= (Round(x) - x) * MILLION <= 0.5
  {
    hide RoundMagnitude;
    MagnitudeIsNearest(if x >= 0.0 then x else -x);
    assert RoundMagnitude(0.0) == 0.0 by {
      MagnitudeOfZero();
    }
  }

  lemma MagnitudeOfZero()
    ensures RoundMagnitude(0.0) == 0.0
  {
  }

  // ----- quantiles -----

  /** How many of n samples a quantile asks for, before rounding up. */
  function Share(n: nat, quantile: real): real {
    n as real * quantile
  }

  /** Where the quantile of n samples stands. */
  function IndexAt(n: nat, quantile: real): (i: nat)
    requires n > 0
    ensures i < n
  {
    var at := Ceil(Share(n, quantile)) - 1;
    if at < 0 then 0 else if at > n - 1 then n - 1 else at
  }

  function Quantile(sorted: seq<real>, quantile: real): real {
    if sorted == [] then 0.0 else sorted[IndexAt(|sorted|, quantile)]
  }

  /** The quantile of samples in any order. */
  function Percentile(values: seq<real>, quantile: real): real {
    Quantile(Ascending(values), quantile)
  }

  datatype Spread = Spread(p50: real, p95: real, p99: real, max: real)

  function SpreadOf(values: seq<real>): Spread {
    var sorted := Ascending(values);
    Spread(Round(Quantile(sorted, 0.50)), Round(Quantile(sorted, 0.95)), Round(Quantile(sorted, 0.99)),
           Round(if sorted == [] then 0.0 else sorted[|sorted| - 1]))
  }

  ghost predicate Chain(s: Spread) {
    s.p50 <= s.p95 <= s.p99 <= s.max
  }

  lemma AscendingSorts(values: seq<real>)
    ensures SortedBy(RealLeq, Ascending(values)) && |Ascending(values)| == |values|
    ensures multiset(Ascending(values)) == multiset(values)
  {
    SortSorts(RealLeq, values);
  }

  lemma SortedAt(sorted: seq<real>, i: nat, j: nat)
    requires SortedBy(RealLeq, sorted) && i <= j < |sorted|
    ensures sorted[i] <= sorted[j]
  {
    assert i < j ==> RealLeq(sorted[i], sorted[j]);
  }

  lemma Scale(c: real, p: real, q: real)
    requires c >= 0.0 && p <= q
    ensures c * p <= c * q
  {
    var d := q - p;
    assert c * d >= 0.0;
    assert c * q == c * (p + d) == c * p + c * d;
  }

  lemma IndexIsMonotone(n: nat, p: real, q: real)
    requires n > 0 && p <= q
    ensures IndexAt(n, p) <= IndexAt(n, q)
  {
    Scale(n as real, p, q);
    assert (-Share(n, q)).Floor <= (-Share(n, p)).Floor;
  }

  /** A larger quantile is never a smaller sample. */
  lemma QuantileIsMonotone(sorted: seq<real>, p: real, q: real)
    requires SortedBy(RealLeq, sorted) && p <= q
    ensures Quantile(sorted, p) <= Quantile(sorted, q)
  {
    if sorted != [] {
      IndexIsMonotone(|sorted|, p, q);
      SortedAt(sorted, IndexAt(|sorted|, p), IndexAt(|sorted|, q));
    }
  }

  /** The percentiles of one run form a chain. */
  lemma SpreadIsChain(values: seq<real>)
    ensures Chain(SpreadOf(values))
  {
    hide Round, IndexAt;
    var sorted := Ascending(values);
    AscendingSorts(values);
    QuantileIsMonotone(sorted, 0.50, 0.95);
    QuantileIsMonotone(sorted, 0.95, 0.99);
    RoundIsMonotone(Quantile(sorted, 0.50), Quantile(sorted, 0.95));
    RoundIsMonotone(Quantile(sorted, 0.95), Quantile(sorted, 0.99));
    if sorted != [] {
      SortedAt(sorted, IndexAt(|sorted|, 0.99), |sorted| - 1);
      RoundIsMonotone(Quantile(sorted, 0.99), sorted[|sorted| - 1]);
    } else {
      RoundIsMonotone(0.0, 0.0);
    }
  }

  // ----- counting samples -----

  /** Samples at most v. */
  function AtMost(values: seq<real>, v: real): nat {
    if values == [] then 0 else (if values[0] <= v then 1 else 0) + AtMost(values[1..], v)
  }

  /** Samples at least v. */
  function AtLeast(values: seq<real>, v: real): nat {
    if values == [] then 0 else (if values[0] >= v then 1 else 0) + AtLeast(values[1..], v)
  }

  lemma {:induction false} InsertCounts(x: real, s: seq<real>, v: real)
    ensures AtMost(Insert(RealLeq, x, s), v) == AtMost(s, v) + if x <= v then 1 else 0
    ensures AtLeast(Insert(RealLeq, x, s), v) == AtLeast(s, v) + if x >= v then 1 else 0
  {
    if s != [] {
      if x <= s[0] {
        assert ([x] + s)[1..] == s;
      } else {
        InsertCounts(x, s[1..], v);
        assert ([s[0]] + Insert(RealLeq, x, s[1..]))[1..] == Insert(RealLeq, x, s[1..]);
      }
    }
  }

  lemma {:induction false} SortCounts(values: seq<real>, v: real)
    ensures AtMost(Ascending(values), v) == AtMost(values, v)
    ensures AtLeast(Ascending(values), v) == AtLeast(values, v)
  {
    if values != [] {
      SortCounts(values[1..], v);
      InsertCounts(values[0], Ascending(values[1..]), v);
    }
  }

  /** In sorted samples more than k are at most v exactly when the k-th is. */
  lemma {:induction false} RankIff(sorted: seq<real>, k: nat, v: real)
    requires SortedBy(RealLeq, sorted) && k < |sorted|
    ensures AtMost(sorted, v) > k <==> sorted[k] <= v
  {
    SortedAt(sorted, 0, k);
    if k == 0 {
      if sorted[0] > v {
        NoneAtMost(sorted, v);
      }
    } else {
      TailIsSorted(RealLeq, sorted);
      RankIff(sorted[1..], k - 1, v);
      if sorted[0] > v {
        NoneAtMost(sorted, v);
      }
    }
  }

  lemma {:induction false} NoneAtMost(sorted: seq<real>, v: real)
    requires SortedBy(RealLeq, sorted) && (sorted != [] ==> sorted[0] > v)
    ensures AtMost(sorted, v) == 0
  {
    if sorted != [] {
      TailIsSorted(RealLeq, sorted);
      if |sorted| > 1 {
        SortedAt(sorted, 0, 1);
      }
      NoneAtMost(sorted[1..], v);
    }
  }

  /** Every sample is at most v or at least v. */
  lemma {:induction false} CountsCover(values: seq<real>, v: real)
    ensures AtMost(values, v) + AtLeast(values, v) >= |values|
    ensures AtMost(values, v) <= |values| && AtLeast(values, v) <= |values|
  {
    if values != [] {
      CountsCover(values[1..], v);
    }
  }

  lemma CeilIs(x: real, m: int)
    ensures m as real >= x <==> m >= Ceil(x)
  {
  }

  lemma IndexIs(n: nat, p: real)
    requires n > 0 && 0.0 < p <= 1.0
    ensures IndexAt(n, p) == Ceil(Share(n, p)) - 1
  {
    var share := Share(n, p);
    Scale(n as real, p, 1.0);
    assert share > 0.0;
    CeilIs(share, 0);
    CeilIs(share, n);
  }

  lemma RankReaches(values: seq<real>, share: real, k: nat, w: real)
    requires k < |values| && k == Ceil(share) - 1
    ensures |Ascending(values)| == |values| && Ascending(values)[k] in values
    ensures AtMost(values, w) as real >= share <==> w >= Ascending(values)[k]
  {
    hide Ascending, Ceil, AtMost;
    var sorted := Ascending(values);
    AscendingSorts(values);
    SortCounts(values, w);
    CeilIs(share, AtMost(values, w));
    RankIff(sorted, k, w);
    assert sorted[k] in multiset(sorted);
  }

  /** The p-quantile is the least sample that at least a share p of the samples does not exceed. */
  lemma PercentileIsLeast(values: seq<real>, p: real, w: real)
    requires values != [] && 0.0 < p <= 1.0
    ensures Percentile(values, p) in values
    ensures AtMost(values, w) as real >= |values| as real * p <==> w >= Percentile(values, p)
  {
    hide Ascending, Ceil, IndexAt, AtMost;
    IndexIs(|values|, p);
    RankReaches(values, Share(|values|, p), IndexAt(|values|, p), w);
  }

  /** What the four figures of a run are: each the rounded least sample that covers its share, and the largest. */
  lemma SpreadIs(values: seq<real>) returns (raw: Spread)
    requires values != []
    ensures SpreadOf(values) == Spread(Round(raw.p50), Round(raw.p95), Round(raw.p99), Round(raw.max))
    ensures raw.p50 in values && raw.p95 in values && raw.p99 in values && raw.max in values
    ensures forall w :: AtMost(values, w) as real >= |values| as real * 0.50 <==> w >= raw.p50
    ensures forall w :: AtMost(values, w) as real >= |values| as real * 0.95 <==> w >= raw.p95
    ensures forall w :: AtMost(values, w) as real >= |values| as real * 0.99 <==> w >= raw.p99
    ensures forall w :: AtMost(values, w) == |values| <==> w >= raw.max
  {
    hide Ascending, IndexAt, AtMost, Round;
    var sorted := Ascending(values);
    AscendingSorts(values);
    raw := Spread(Quantile(sorted, 0.50), Quantile(sorted, 0.95), Quantile(sorted, 0.99), sorted[|sorted| - 1]);
    assert sorted[|sorted| - 1] in multiset(sorted);
    PercentileIsLeast(values, 0.50, 0.0);
    PercentileIsLeast(values, 0.95, 0.0);
    PercentileIsLeast(values, 0.99, 0.0);
    forall w
      ensures AtMost(values, w) as real >= |values| as real * 0.50 <==> w >= raw.p50
      ensures AtMost(values, w) as real >= |values| as real * 0.95 <==> w >= raw.p95
      ensures AtMost(values, w) as real >= |values| as real * 0.99 <==> w >= raw.p99
      ensures AtMost(values, w) == |values| <==> w >= raw.max
    {
      PercentileIsLeast(values, 0.50, w);
      PercentileIsLeast(values, 0.95, w);
      PercentileIsLeast(values, 0.99, w);
      SortCounts(values, w);
      CountsCover(values, w);
      RankIff(sorted, |sorted| - 1, w);
    }
  }

  // ----- medians -----

  function Middle(sorted: seq<real>): real
    requires sorted != []
  {
    var mid := |sorted| / 2;
    if |sorted| % 2 == 1 then sorted[mid] else (sorted[mid - 1] + sorted[mid]) / 2.0
  }

  function Median(values: seq<real>): real
    requires values != []
  {
    AscendingSorts(values);
    Round(Middle(Ascending(values)))
  }

  /** At least half of the samples lie on either side of the middle. */
  lemma MiddleHalves(values: seq<real>)
    requires values != []
    ensures |Ascending(values)| == |values|
    ensures 2 * AtMost(values, Middle(Ascending(values))) >= |values|
    ensures 2 * AtLeast(values, Middle(Ascending(values))) >= |values|
  {
    AscendingSorts(values);
    var sorted := Ascending(values);
    var m, mid := Middle(sorted), |sorted| / 2;
    SortCounts(values, m);
    CountsCover(values, m);
    if |sorted| % 2 == 1 {
      RankIff(sorted, mid, m);
      LateAtLeast(sorted, mid, m);
    } else {
      SortedAt(sorted, mid - 1, mid);
      RankIff(sorted, mid - 1, m);
      LateAtLeast(sorted, mid, m);
    }
  }

  lemma {:induction false} LateAtLeast(sorted: seq<real>, k: nat, v: real)
    requires SortedBy(RealLeq, sorted) && k < |sorted| && sorted[k] >= v
    ensures AtLeast(sorted, v) >= |sorted| - k
  {
    TailIsSorted(RealLeq, sorted);
    if k > 0 {
      LateAtLeast(sorted[1..], k - 1, v);
    } else if |sorted| > 1 {
      SortedAt(sorted, 0, 1);
      LateAtLeast(sorted[1..], 0, v);
    }
  }

  ghost predicate Pointwise(a: seq<real>, b: seq<real>) {
    |a| == |b| && forall i :: 0 <= i < |a| ==> a[i] <= b[i]
  }

  lemma {:induction false} PointwiseCounts(a: seq<real>, b: seq<real>, v: real)
    requires Pointwise(a, b)
    ensures AtMost(b, v) <= AtMost(a, v)
  {
    if a != [] {
      PointwiseCounts(a[1..], b[1..], v);
    }
  }

  /** Order statistics respect the pointwise order. */
  lemma RanksRespectPointwise(a: seq<real>, b: seq<real>, k: nat)
    requires Pointwise(a, b) && k < |a|
    ensures |Ascending(a)| == |a| == |Ascending(b)|
    ensures Ascending(a)[k] <= Ascending(b)[k]
  {
    AscendingSorts(a);
    AscendingSorts(b);
    var v := Ascending(b)[k];
    RankIff(Ascending(b), k, v);
    SortCounts(b, v);
    PointwiseCounts(a, b, v);
    SortCounts(a, v);
    RankIff(Ascending(a), k, v);
  }

  /** The median respects the pointwise order, for odd and even numbers of samples. */
  lemma MedianIsMonotone(a: seq<real>, b: seq<real>)
    requires a != [] && Pointwise(a, b)
    ensures Median(a) <= Median(b)
  {
    hide Round, Ascending;
    var mid := |a| / 2;
    AscendingSorts(a);
    AscendingSorts(b);
    RanksRespectPointwise(a, b, mid);
    if |a| % 2 == 0 {
      RanksRespectPointwise(a, b, mid - 1);
    }
    RoundIsMonotone(Middle(Ascending(a)), Middle(Ascending(b)));
  }

  function Negate(x: real): real {
    -x
  }

  lemma {:induction false} NegatedCounts(values: seq<real>, v: real)
    ensures AtMost(Map(Negate, values), v) == AtLeast(values, -v)
  {
    if values != [] {
      assert Map(Negate, values)[1..] == Map(Negate, values[1..]);
      NegatedCounts(values[1..], v);
    }
  }

  /** In sorted samples more than k are at least v exactly when the k-th from the top is. */
  lemma RankFromTopIff(sorted: seq<real>, k: nat, v: real)
    requires SortedBy(RealLeq, sorted) && k < |sorted|
    ensures AtLeast(sorted, v) > k <==> sorted[|sorted| - 1 - k] >= v
  {
    var i: nat := |sorted| - 1 - k;
    if sorted[i] >= v {
      LateAtLeast(sorted, i, v);
    } else {
      FewAtLeast(sorted, i, v);
    }
  }

  lemma {:induction false} FewAtLeast(sorted: seq<real>, i: nat, v: real)
    requires SortedBy(RealLeq, sorted) && i < |sorted| && sorted[i] < v
    ensures AtLeast(sorted, v) <= |sorted| - 1 - i
  {
    TailIsSorted(RealLeq, sorted);
    SortedAt(sorted, 0, i);
    if i > 0 {
      FewAtLeast(sorted[1..], i - 1, v);
    } else {
      CountsCover(sorted[1..], v);
    }
  }

  lemma NegatedRank(values: seq<real>, k: nat)
    requires k < |values|
    ensures |Ascending(values)| == |values| == |Ascending(Map(Negate, values))|
    ensures Ascending(Map(Negate, values))[k] == -Ascending(values)[|values| - 1 - k]
  {
    hide Ascending;
    var negated := Map(Negate, values);
    AscendingSorts(values);
    AscendingSorts(negated);
    var a, b := Ascending(negated)[k], -Ascending(values)[|values| - 1 - k];
    NegatedRankIff(values, k, a);
    NegatedRankIff(values, k, b);
  }

  lemma NegatedRankIff(values: seq<real>, k: nat, w: real)
    requires k < |values|
    ensures |Ascending(values)| == |values| == |Ascending(Map(Negate, values))|
    ensures Ascending(Map(Negate, values))[k] <= w <==> -Ascending(values)[|values| - 1 - k] <= w
  {
    hide Ascending;
    var negated := Map(Negate, values);
    AscendingSorts(values);
    AscendingSorts(negated);
    RankIff(Ascending(negated), k, w);
    SortCounts(negated, w);
    NegatedCounts(values, w);
    SortCounts(values, -w);
    RankFromTopIff(Ascending(values), k, -w);
  }

  /** The median takes no side: turning every sample around turns the median around. */
  lemma MedianIsSymmetric(values: seq<real>)
    requires values != []
    ensures Median(Map(Negate, values)) == -Median(values)
  {
    hide Ascending, Round;
    var mid := |values| / 2;
    NegatedRank(values, mid);
    if |values| % 2 == 0 {
      NegatedRank(values, mid - 1);
    }
    RoundIsNearest(Middle(Ascending(values)));
  }

  // ----- medians of repeated measurements -----

  datatype ProducerSide = ProducerSide(
    wallMs: real, cpuMs: real, eventsPerSecond: real, ackLatencyMs: Spread, brokerIngressBytes: real, brokerCpuMs: real)

  datatype ConsumerSide = ConsumerSide(
    wallMs: real, cpuMs: real, eventsPerSecond: real, brokerEgressBytes: real, brokerCpuMs: real)

  datatype Measurement = Measurement(
    arm: string, scenario: string, totalMessages: real, rawBytes: real, topicDiskBytes: real,
    producer: ProducerSide, consumer: ConsumerSide)

  /** The measurements of one arm and scenario, in order. */
  function Selected(raw: seq<Measurement>, arm: string, scenario: string): seq<Measurement> {
    if raw == [] then []
    else (if raw[0].arm == arm && raw[0].scenario == scenario then [raw[0]] else []) + Selected(raw[1..], arm, scenario)
  }

  /** `items.map(f)` and its median. */
  function MedianOf(f: Measurement -> real, items: seq<Measurement>): real
    requires items != []
  {
    Median(Map(f, items))
  }

  function AckMedians(items: seq<Measurement>): Spread
    requires items != []
  {
    Spread(
      MedianOf((m: Measurement) => m.producer.ackLatencyMs.p50, items),
      MedianOf((m: Measurement) => m.producer.ackLatencyMs.p95, items),
      MedianOf((m: Measurement) => m.producer.ackLatencyMs.p99, items),
      MedianOf((m: Measurement) => m.producer.ackLatencyMs.max, items))
  }

  function ProducerMedians(items: seq<Measurement>): ProducerSide
    requires items != []
  {
    ProducerSide(
      MedianOf((m: Measurement) => m.producer.wallMs, items),
      MedianOf((m: Measurement) => m.producer.cpuMs, items),
      MedianOf((m: Measurement) => m.producer.eventsPerSecond, items),
      AckMedians(items),
      MedianOf((m: Measurement) => m.producer.brokerIngressBytes, items),
      MedianOf((m: Measurement) => m.producer.brokerCpuMs, items))
  }

  function ConsumerMedians(items: seq<Measurement>): ConsumerSide
    requires items != []
  {
    ConsumerSide(
      MedianOf((m: Measurement) => m.consumer.wallMs, items),
      MedianOf((m: Measurement) => m.consumer.cpuMs, items),
      MedianOf((m: Measurement) => m.consumer.eventsPerSecond, items),
      MedianOf((m: Measurement) => m.consumer.brokerEgressBytes, items),
      MedianOf((m: Measurement) => m.consumer.brokerCpuMs, items))
  }

  /** Refuses any number of measurements other than the configured number of repeats, which is positive. */
  function MedianScenario(
      raw: seq<Measurement>, arm: string, scenario: string, repeats: nat): Result<Measurement, string>
    requires repeats > 0
  {
    var items := Selected(raw, arm, scenario);
    if |items| != repeats then Err("unexpected number of repeats")
    else
      Ok(Measurement(
        arm, scenario, items[0].totalMessages, items[0].rawBytes,
        MedianOf((m: Measurement) => m.topicDiskBytes, items), ProducerMedians(items), ConsumerMedians(items)))
  }

  lemma MediansFollow(items: seq<Measurement>, f: Measurement -> real, g: Measurement -> real)
    requires items != [] && forall m :: m in items ==> f(m) <= g(m)
    ensures MedianOf(f, items) <= MedianOf(g, items)
  {
    MedianIsMonotone(Map(f, items), Map(g, items));
  }

  ghost predicate AllChains(items: seq<Measurement>) {
    forall m :: m in items ==> Chain(m.producer.ackLatencyMs)
  }

  lemma AckMediansChain(items: seq<Measurement>)
    requires items != [] && AllChains(items)
    ensures Chain(AckMedians(items))
  {
    hide MedianOf;
    var p50, p95 := (m: Measurement) => m.producer.ackLatencyMs.p50, (m: Measurement) => m.producer.ackLatencyMs.p95;
    var p99, max := (m: Measurement) => m.producer.ackLatencyMs.p99, (m: Measurement) => m.producer.ackLatencyMs.max;
    MediansFollow(items, p50, p95);
    MediansFollow(items, p95, p99);
    MediansFollow(items, p99, max);
  }

  lemma {:induction false} SelectedAre(raw: seq<Measurement>, arm: string, scenario: string)
    ensures forall m :: m in Selected(raw, arm, scenario) <==> m in raw && m.arm == arm && m.scenario == scenario
  {
    if raw != [] {
      SelectedAre(raw[1..], arm, scenario);
      assert raw == [raw[0]] + raw[1..];
    }
  }

  /** Medians over any number of runs whose percentiles come from their own samples keep p50 <= p95 <= p99 <= max. */
  lemma MedianScenarioKeepsChain(
      raw: seq<Measurement>, samples: Measurement -> seq<real>, arm: string, scenario: string, repeats: nat)
    requires repeats > 0
    requires forall m :: m in raw ==> m.producer.ackLatencyMs == SpreadOf(samples(m))
    ensures var r := MedianScenario(raw, arm, scenario, repeats);
            && (r.Ok? <==> |Selected(raw, arm, scenario)| == repeats)
            && (r.Ok? ==> Chain(r.value.producer.ackLatencyMs))
  {
    hide Chain, AckMedians, MedianOf, SpreadOf;
    var items := Selected(raw, arm, scenario);
    if |items| == repeats {
      SelectedAre(raw, arm, scenario);
      forall m | m in items ensures Chain(m.producer.ackLatencyMs) {
        SpreadIsChain(samples(m));
      }
      AckMediansChain(items);
    }
  }
}

/**
 Guardrails against the gzip arm and the Pareto frontiers
 (fedify-sidecar/scripts/benchmark-redpanda-compression-v2.ts with two objectives,
 fedify-sidecar/scripts/benchmark-opensearch-os4b-batching.ts with four).
 */
module ParetoFrontier {
  import opened Prelude
  import opened Percentiles

  // ----- JavaScript numbers as division makes them -----

  datatype Number = Finite(value: real) | Infinite(positive: bool) | NotANumber

  function Divide(x: real, y: real): Number {
    if y != 0.0 then Finite(x / y)
    else if x == 0.0 then NotANumber
    else Infinite(x > 0.0)
  }

  /** `x <= y`, false when either is not a number. */
  predicate Leq(x: Number, y: Number) {
    match (x, y)
    case (Finite(a), Finite(b)) => a <= b
    case (Infinite(p), Finite(_)) => !p
    case (Finite(_), Infinite(q)) => q
    case (Infinite(p), Infinite(q)) => p ==> q
    case _ => false
  }

  predicate Less(x: Number, y: Number) {
    Leq(x, y) && !Leq(y, x)
  }

  /** The number lies above the real bound. */
  ghost predicate Above(x: Number, bound: real) {
    x == Infinite(true) || (x.Finite? && x.value > bound)
  }

  /** Not more than: both are numbers, and the one lies above no bound that the other does not. */
  ghost predicate NotMore(x: Number, y: Number) {
    x != NotANumber && y != NotANumber && forall bound :: Above(x, bound) ==> Above(y, bound)
  }

  lemma LeqIff(x: Number, y: Number)
    ensures Leq(x, y) <==> NotMore(x, y)
  {
    if NotMore(x, y) {
      if y.Finite? {
        assert Above(x, y.value) ==> Above(y, y.value);
      } else if y == Infinite(false) && x.Finite? {
        assert Above(x, x.value - 1.0);
      } else if y == Infinite(false) {
        assert Above(x, 0.0) ==> Above(y, 0.0);
      }
    }
  }

  function RoundNumber(x: Number): Number {
    if x.Finite? then Finite(Round(x.value)) else x
  }

  // ----- maximal elements of a strict order -----

  ghost predicate StrictOrder<T(!new)>(better: (T, T) -> bool) {
    && (forall x :: !better(x, x))
    && (forall x, y, z :: better(x, y) && better(y, z) ==> better(x, z))
  }

  predicate Unbeaten<T>(better: (T, T) -> bool, s: seq<T>, x: T) {
    forall i :: 0 <= i < |s| ==> !better(s[i], x)
  }

  /** `s.filter(keep)`. */
  function Filter<T>(keep: T -> bool, s: seq<T>): seq<T> {
    if s == [] then [] else (if keep(s[0]) then [s[0]] else []) + Filter(keep, s[1..])
  }

  lemma {:induction false} FilterIs<T>(keep: T -> bool, s: seq<T>)
    ensures forall x :: x in Filter(keep, s) <==> x in s && keep(x)
  {
    if s != [] {
      FilterIs(keep, s[1..]);
      assert s == [s[0]] + s[1..];
    }
  }

  /** Every element is unbeaten or beaten by an unbeaten one. */
  lemma {:induction false} Climb<T(!new)>(better: (T, T) -> bool, s: seq<T>, x: T) returns (top: T)
    requires StrictOrder(better) && x in s
    ensures top in s && Unbeaten(better, s, top) && (top == x || better(top, x))
    decreases set y | y in s && better(y, x)
  {
    if Unbeaten(better, s, x) {
      top := x;
    } else {
      var i :| 0 <= i < |s| && better(s[i], x);
      var above, aboveNext := set y | y in s && better(y, x), set y | y in s && better(y, s[i]);
      assert aboveNext <= above && s[i] in above && s[i] !in aboveNext;
      top := Climb(better, s, s[i]);
    }
  }

  // ----- comparing an arm with gzip -----

  datatype ArmSummary = ArmSummary(
    arm: string, singleton: map<string, Spread>, cpuMsPerThousandEvents: real,
    measuredInfrastructureGB: real, modeledRf3InfrastructureGB: real, throughput: real)

  datatype Reason = SlowP95(scenario: string) | SlowP99(scenario: string) | CostlyCpu

  datatype Comparison = Comparison(
    arm: string, eligible: bool, reasons: seq<Reason>, measuredInfrastructure: Number,
    modeledRf3Infrastructure: Number, totalCpu: Number, throughput: Number)

  const LATENCY_SCENARIOS: seq<string> := ["short-create-latency", "interaction-latency"]

  /** `x / y > limit`. */
  predicate Exceeds(x: real, y: real, limit: real) {
    Less(Finite(limit), Divide(x, y))
  }

  function ScenarioReasons(c: Spread, g: Spread, scenario: string): seq<Reason> {
    (if Exceeds(c.p95, g.p95, 1.10) then [SlowP95(scenario)] else [])
    + if Exceeds(c.p99, g.p99, 1.15) then [SlowP99(scenario)] else []
  }

  predicate Measured(s: ArmSummary, scenarios: seq<string>) {
    forall i :: 0 <= i < |scenarios| ==> scenarios[i] in s.singleton
  }

  /** The reasons of the latency scenarios; both arms must have measured them all. */
  function LatencyReasons(c: ArmSummary, g: ArmSummary, scenarios: seq<string>): seq<Reason>
    requires Measured(c, scenarios) && Measured(g, scenarios)
  {
    if scenarios == [] then []
    else
      var n := |scenarios| - 1;
      LatencyReasons(c, g, scenarios[..n])
      + ScenarioReasons(c.singleton[scenarios[n]], g.singleton[scenarios[n]], scenarios[n])
  }

  function CpuReasons(c: ArmSummary, g: ArmSummary): seq<Reason> {
    if Exceeds(c.cpuMsPerThousandEvents, g.cpuMsPerThousandEvents, 1.15) then [CostlyCpu] else []
  }

  function Compared(c: ArmSummary, g: ArmSummary, reasons: seq<Reason>): Comparison {
    Comparison(
      c.arm, reasons == [], reasons,
      RoundNumber(Divide(c.measuredInfrastructureGB, g.measuredInfrastructureGB)),
      RoundNumber(Divide(c.modeledRf3InfrastructureGB, g.modeledRf3InfrastructureGB)),
      RoundNumber(Divide(c.cpuMsPerThousandEvents, g.cpuMsPerThousandEvents)),
      RoundNumber(Divide(c.throughput, g.throughput)))
  }

  function CompareWith(c: ArmSummary, g: ArmSummary): Result<Comparison, string> {
    if !Measured(c, LATENCY_SCENARIOS) || !Measured(g, LATENCY_SCENARIOS) then Err("Missing scenario")
    else Ok(Compared(c, g, LatencyReasons(c, g, LATENCY_SCENARIOS) + CpuReasons(c, g)))
  }

  /** `compare`, pushing one reason for each guardrail exceeded. */
  method Compare(c: ArmSummary, g: ArmSummary) returns (r: Result<Comparison, string>)
    ensures r == CompareWith(c, g)
  {
    var reasons := [];
    for i := 0 to |LATENCY_SCENARIOS|
      invariant Measured(c, LATENCY_SCENARIOS[..i]) && Measured(g, LATENCY_SCENARIOS[..i])
      invariant reasons == LatencyReasons(c, g, LATENCY_SCENARIOS[..i])
    {
      var scenario := LATENCY_SCENARIOS[i];
      if scenario !in c.singleton || scenario !in g.singleton {
        return Err("Missing scenario");
      }
      assert LATENCY_SCENARIOS[..i + 1][..i] == LATENCY_SCENARIOS[..i];
      ghost var before := reasons;
      if Exceeds(c.singleton[scenario].p95, g.singleton[scenario].p95, 1.10) {
        reasons := reasons + [SlowP95(scenario)];
      }
      if Exceeds(c.singleton[scenario].p99, g.singleton[scenario].p99, 1.15) {
        reasons := reasons + [SlowP99(scenario)];
      }
      assert reasons == before + ScenarioReasons(c.singleton[scenario], g.singleton[scenario], scenario);
    }
    assert LATENCY_SCENARIOS[..|LATENCY_SCENARIOS|] == LATENCY_SCENARIOS;
    ghost var latency := reasons;
    if Exceeds(c.cpuMsPerThousandEvents, g.cpuMsPerThousandEvents, 1.15) {
      reasons := reasons + [CostlyCpu];
    }
    assert reasons == latency + CpuReasons(c, g);
    r := Ok(Compared(c, g, reasons));
  }

  /** More than so many times the other: as a ratio, which is infinite over zero unless both are zero. */
  ghost predicate Over(x: real, y: real, limit: real) {
    if y > 0.0 then x > limit * y else if y < 0.0 then x < limit * y else x > 0.0
  }

  lemma ExceedsIff(x: real, y: real, limit: real)
    ensures Exceeds(x, y, limit) <==> Over(x, y, limit)
  {
    if y != 0.0 {
      var ratio := x / y;
      assert x == ratio * y;
      if y > 0.0 {
        assert ratio > limit <==> ratio * y > limit * y;
      } else {
        assert ratio > limit <==> ratio * y < limit * y;
      }
    }
  }

  /** The reason stands for a guardrail that is passed. */
  ghost predicate Holds(c: ArmSummary, g: ArmSummary, reason: Reason)
    requires Measured(c, LATENCY_SCENARIOS) && Measured(g, LATENCY_SCENARIOS)
  {
    match reason
    case SlowP95(scenario) =>
      scenario in LATENCY_SCENARIOS && Over(c.singleton[scenario].p95, g.singleton[scenario].p95, 1.10)
    case SlowP99(scenario) =>
      scenario in LATENCY_SCENARIOS && Over(c.singleton[scenario].p99, g.singleton[scenario].p99, 1.15)
    case CostlyCpu => Over(c.cpuMsPerThousandEvents, g.cpuMsPerThousandEvents, 1.15)
  }

  /** No guardrail passed: p95, p99 of every latency scenario, and CPU. */
  ghost predicate WithinGuardrails(c: ArmSummary, g: ArmSummary)
    requires Measured(c, LATENCY_SCENARIOS) && Measured(g, LATENCY_SCENARIOS)
  {
    forall reason :: !Holds(c, g, reason)
  }

  /** The ratio of two measures, rounded; over zero it is infinite, or no number when both are zero. */
  ghost predicate RatioIs(n: Number, x: real, y: real) {
    if y != 0.0 then exists q: real :: q * y == x && n == Finite(Round(q))
    else if x == 0.0 then n == NotANumber
    else n == Infinite(x > 0.0)
  }

  lemma RoundedRatioIs(x: real, y: real)
    ensures RatioIs(RoundNumber(Divide(x, y)), x, y)
  {
    if y != 0.0 {
      assert (x / y) * y == x;
    }
  }

  lemma {:induction false} LatencyReasonsAre(c: ArmSummary, g: ArmSummary, scenarios: seq<string>, reason: Reason)
    requires Measured(c, scenarios) && Measured(g, scenarios)
    ensures reason in LatencyReasons(c, g, scenarios) <==>
              match reason
              case SlowP95(scenario) =>
                scenario in scenarios && Over(c.singleton[scenario].p95, g.singleton[scenario].p95, 1.10)
              case SlowP99(scenario) =>
                scenario in scenarios && Over(c.singleton[scenario].p99, g.singleton[scenario].p99, 1.15)
              case CostlyCpu => false
  {
    if scenarios != [] {
      var n := |scenarios| - 1;
      var last := scenarios[n];
      assert scenarios == scenarios[..n] + [last];
      hide Exceeds, Over;
      LatencyReasonsAre(c, g, scenarios[..n], reason);
      ExceedsIff(c.singleton[last].p95, g.singleton[last].p95, 1.10);
      ExceedsIff(c.singleton[last].p99, g.singleton[last].p99, 1.15);
    }
  }

  /** What a comparison says: the arm, the guardrails passed and no others, and the ratios to gzip. */
  lemma ComparisonIs(c: ArmSummary, g: ArmSummary)
    ensures CompareWith(c, g).Ok? <==> Measured(c, LATENCY_SCENARIOS) && Measured(g, LATENCY_SCENARIOS)
    ensures CompareWith(c, g).Ok? ==>
              var x := CompareWith(c, g).value;
              && x.arm == c.arm && (forall reason :: reason in x.reasons <==> Holds(c, g, reason))
              && (x.eligible <==> x.reasons == [])
              && RatioIs(x.measuredInfrastructure, c.measuredInfrastructureGB, g.measuredInfrastructureGB)
              && RatioIs(x.modeledRf3Infrastructure, c.modeledRf3InfrastructureGB, g.modeledRf3InfrastructureGB)
              && RatioIs(x.totalCpu, c.cpuMsPerThousandEvents, g.cpuMsPerThousandEvents)
              && RatioIs(x.throughput, c.throughput, g.throughput)
  {
    hide Exceeds, Over, LatencyReasons, RatioIs, RoundNumber, Divide;
    RoundedRatioIs(c.measuredInfrastructureGB, g.measuredInfrastructureGB);
    RoundedRatioIs(c.modeledRf3InfrastructureGB, g.modeledRf3InfrastructureGB);
    RoundedRatioIs(c.cpuMsPerThousandEvents, g.cpuMsPerThousandEvents);
    RoundedRatioIs(c.throughput, g.throughput);
    ExceedsIff(c.cpuMsPerThousandEvents, g.cpuMsPerThousandEvents, 1.15);
    if CompareWith(c, g).Ok? {
      forall reason ensures reason in CompareWith(c, g).value.reasons <==> Holds(c, g, reason) {
        LatencyReasonsAre(c, g, LATENCY_SCENARIOS, reason);
      }
    }
  }

  /** An arm is eligible exactly when it exceeds no guardrail. */
  lemma EligibleIff(c: ArmSummary, g: ArmSummary)
    requires CompareWith(c, g).Ok?
    ensures CompareWith(c, g).value.eligible <==> WithinGuardrails(c, g)
  {
    hide Holds, LatencyReasons, RatioIs;
    ComparisonIs(c, g);
    var reasons := CompareWith(c, g).value.reasons;
    assert reasons != [] ==> reasons[0] in reasons;
  }

  /** Gzip against itself is always eligible, whatever was measured, zeros included. */
  lemma GzipIsEligible(g: ArmSummary)
    requires Measured(g, LATENCY_SCENARIOS)
    ensures CompareWith(g, g).Ok? && CompareWith(g, g).value.eligible
  {
    EligibleIff(g, g);
  }

  // ----- two objectives -----

  /** As small in both ratios and smaller in one. */
  predicate Cheaper(x: Comparison, y: Comparison) {
    && Leq(x.measuredInfrastructure, y.measuredInfrastructure) && Leq(x.totalCpu, y.totalCpu)
    && (Less(x.measuredInfrastructure, y.measuredInfrastructure) || Less(x.totalCpu, y.totalCpu))
  }

  ghost predicate NoCostlier(x: Comparison, y: Comparison) {
    NotMore(x.measuredInfrastructure, y.measuredInfrastructure) && NotMore(x.totalCpu, y.totalCpu)
  }

  /** At most as costly in both ratios, and not the other way round. */
  ghost predicate Beats(x: Comparison, y: Comparison) {
    NoCostlier(x, y) && !NoCostlier(y, x)
  }

  lemma CheaperIff()
    ensures forall x, y :: Cheaper(x, y) <==> Beats(x, y)
  {
    forall x, y ensures Leq(x, y) <==> NotMore(x, y) {
      LeqIff(x, y);
    }
    hide Leq, NotMore;
  }

  predicate IsEligible(x: Comparison) {
    x.eligible
  }

  /** Some other arm is cheaper: arms are told apart by name. */
  predicate Dominated(eligible: seq<Comparison>, x: Comparison) {
    exists i :: 0 <= i < |eligible| && eligible[i].arm != x.arm && Cheaper(eligible[i], x)
  }

  function Eligible(comparisons: seq<Comparison>): seq<Comparison> {
    Filter(IsEligible, comparisons)
  }

  /** The comparisons on the frontier. */
  function Frontier(comparisons: seq<Comparison>): seq<Comparison> {
    var eligible := Eligible(comparisons);
    Filter((x: Comparison) => !Dominated(eligible, x), eligible)
  }

  function ArmOf(x: Comparison): string {
    x.arm
  }

  /** `findPareto`: the names of the arms on the frontier. */
  function FindPareto(comparisons: seq<Comparison>): seq<string> {
    Map(ArmOf, Frontier(comparisons))
  }

  lemma LeqIsTransitive(x: Number, y: Number, z: Number)
    requires Leq(x, y) && Leq(y, z)
    ensures Leq(x, z)
    ensures Less(x, y) || Less(y, z) ==> Less(x, z)
  {
  }

  lemma CheaperIsStrictOrder()
    ensures StrictOrder(Cheaper)
  {
    hide Leq;
    forall x, y, z | Cheaper(x, y) && Cheaper(y, z) ensures Cheaper(x, z) {
      LeqIsTransitive(x.measuredInfrastructure, y.measuredInfrastructure, z.measuredInfrastructure);
      LeqIsTransitive(x.totalCpu, y.totalCpu, z.totalCpu);
    }
  }

  lemma FrontierIs(comparisons: seq<Comparison>)
    ensures forall x :: x in Eligible(comparisons) <==> x in comparisons && x.eligible
    ensures forall x :: x in Frontier(comparisons) <==>
              x in Eligible(comparisons) && !Dominated(Eligible(comparisons), x)
  {
    FilterIs(IsEligible, comparisons);
    var eligible := Eligible(comparisons);
    FilterIs((x: Comparison) => !Dominated(eligible, x), eligible);
  }

  /** Every eligible comparison is on the frontier or cheaper than it is one on the frontier. */
  lemma FrontierCovers(comparisons: seq<Comparison>, x: Comparison) returns (top: Comparison)
    requires x in comparisons && x.eligible
    ensures top in Frontier(comparisons) && top.arm in FindPareto(comparisons)
    ensures x !in Frontier(comparisons) ==> Beats(top, x)
  {
    CheaperIff();
    hide Cheaper, Beats, Frontier, Eligible;
    CheaperIsStrictOrder();
    FrontierIs(comparisons);
    top := Climb(Cheaper, Eligible(comparisons), x);
    assert !Dominated(Eligible(comparisons), top);
    var k :| 0 <= k < |Frontier(comparisons)| && Frontier(comparisons)[k] == top;
    assert FindPareto(comparisons)[k] == top.arm;
  }

  ghost predicate DistinctArms(comparisons: seq<Comparison>) {
    forall x, y :: x in comparisons && y in comparisons && x.arm == y.arm ==> x == y
  }

  /** Two comparisons on the frontier, one cheaper than the other, bear the same arm name; with one comparison per
      arm there is no such pair. */
  lemma FrontierIsAntichain(comparisons: seq<Comparison>, x: Comparison, y: Comparison)
    requires x in Frontier(comparisons) && y in Frontier(comparisons)
    ensures Beats(x, y) ==> x.arm == y.arm
    ensures DistinctArms(comparisons) ==> !Beats(x, y)
  {
    CheaperIff();
    hide Cheaper, NoCostlier, Frontier, Eligible;
    FrontierIs(comparisons);
    var i :| 0 <= i < |Eligible(comparisons)| && Eligible(comparisons)[i] == x;
  }

  /** The frontier is empty only when no comparison is eligible. */
  lemma FrontierIsEmptyIff(comparisons: seq<Comparison>)
    ensures FindPareto(comparisons) == [] <==> forall x :: x in comparisons ==> !x.eligible
  {
    hide Frontier, Eligible, Cheaper;
    FrontierIs(comparisons);
    var frontier := Frontier(comparisons);
    assert frontier != [] ==> frontier[0] in frontier && frontier[0] in comparisons && frontier[0].eligible;
    if x :| x in comparisons && x.eligible {
      var top := FrontierCovers(comparisons, x);
    }
  }

  function CompareTo(g: ArmSummary): ArmSummary -> Result<Comparison, string> {
    c => CompareWith(c, g)
  }

  /** As the benchmark composes them: comparing every arm with gzip, gzip among them, never empties the frontier. */
  lemma BenchmarkFrontierIsNeverEmpty(summaries: seq<ArmSummary>, g: ArmSummary)
    requires g in summaries && Traverse(CompareTo(g), summaries).Ok?
    ensures FindPareto(Traverse(CompareTo(g), summaries).value) != []
  {
    hide CompareWith, FindPareto;
    var comparisons := Traverse(CompareTo(g), summaries).value;
    TraverseIs(CompareTo(g), summaries, comparisons);
    var i :| 0 <= i < |summaries| && summaries[i] == g;
    assert CompareTo(g)(summaries[i]) == Ok(comparisons[i]);
    GzipMeasured(g);
    GzipIsEligible(g);
    assert comparisons[i] in comparisons;
    FrontierIsEmptyIff(comparisons);
  }

  function SummaryArm(s: ArmSummary): string {
    s.arm
  }

  /** The arms the benchmark measures. */
  const ARMS: seq<string> := ["none", "gzip", "zstd--1", "zstd-1", "zstd-2", "zstd-3", "zstd-4", "zstd-6"]

  lemma ArmsAreDistinct()
    ensures NoDuplicates(ARMS) && "gzip" in ARMS
  {
    assert ARMS[1] == "gzip";
    assert "zstd--1"[5] == '-' && "zstd-1"[5] == '1' && "zstd-2"[5] == '2' && "zstd-3"[5] == '3' && "zstd-4"[5] == '4'
      && "zstd-6"[5] == '6';
    assert "none"[0] == 'n' && "gzip"[0] == 'g';
  }

  lemma ComparesOwnArms(summaries: seq<ArmSummary>, g: ArmSummary)
    requires Traverse(CompareTo(g), summaries).Ok?
    ensures var comparisons := Traverse(CompareTo(g), summaries).value;
            |comparisons| == |summaries|
            && forall i :: 0 <= i < |summaries| ==> comparisons[i].arm == Map(SummaryArm, summaries)[i]
  {
    hide CompareWith;
    var comparisons := Traverse(CompareTo(g), summaries).value;
    TraverseIs(CompareTo(g), summaries, comparisons);
    forall i | 0 <= i < |summaries| ensures comparisons[i].arm == Map(SummaryArm, summaries)[i] {
      assert CompareTo(g)(summaries[i]) == Ok(comparisons[i]);
      ComparesOwnArm(summaries[i], g);
    }
  }

  lemma ComparedArms(summaries: seq<ArmSummary>, g: ArmSummary)
    requires NoDuplicates(Map(SummaryArm, summaries)) && Traverse(CompareTo(g), summaries).Ok?
    ensures DistinctArms(Traverse(CompareTo(g), summaries).value)
  {
    hide CompareWith, Traverse;
    var comparisons, arms := Traverse(CompareTo(g), summaries).value, Map(SummaryArm, summaries);
    ComparesOwnArms(summaries, g);
    forall x, y | x in comparisons && y in comparisons && x.arm == y.arm ensures x == y {
      var i :| 0 <= i < |comparisons| && comparisons[i] == x;
      var j :| 0 <= j < |comparisons| && comparisons[j] == y;
      assert arms[i] == arms[j];
    }
  }

  /**
   As the benchmark composes them, over the constant list of arms: an arm is reported exactly when it is eligible and
   no eligible arm is cheaper, so no reported arm is cheaper than another.
   */
  lemma BenchmarkFrontierIs(summaries: seq<ArmSummary>, g: ArmSummary, i: nat)
    requires Map(SummaryArm, summaries) == ARMS && Traverse(CompareTo(g), summaries).Ok? && i < |summaries|
    ensures var comparisons := Traverse(CompareTo(g), summaries).value;
            && |comparisons| == |summaries|
            && (summaries[i].arm in FindPareto(comparisons) <==>
                  comparisons[i].eligible && forall j :: 0 <= j < |comparisons| && comparisons[j].eligible ==>
                                               !Beats(comparisons[j], comparisons[i]))
  {
    CheaperIff();
    hide CompareWith, Cheaper, Beats, Frontier, Eligible;
    var comparisons := Traverse(CompareTo(g), summaries).value;
    ArmsAreDistinct();
    ComparedArms(summaries, g);
    ComparesOwnArms(summaries, g);
    ReportedIff(comparisons, comparisons[i]);
    OnFrontierIff(comparisons, comparisons[i]);
  }

  lemma ComparesOwnArm(c: ArmSummary, g: ArmSummary)
    requires CompareWith(c, g).Ok?
    ensures CompareWith(c, g).value.arm == c.arm
  {
  }

  /** With distinct names, a name is reported exactly for a comparison on the frontier. */
  lemma ReportedIff(comparisons: seq<Comparison>, x: Comparison)
    requires DistinctArms(comparisons) && x in comparisons
    ensures x.arm in FindPareto(comparisons) <==> x in Frontier(comparisons)
  {
    hide Frontier, Eligible, Cheaper;
    FrontierIs(comparisons);
    var frontier := Frontier(comparisons);
    if x.arm in FindPareto(comparisons) {
      var k :| 0 <= k < |frontier| && FindPareto(comparisons)[k] == x.arm;
      assert frontier[k] in frontier && frontier[k] in comparisons;
    }
    if x in frontier {
      var k :| 0 <= k < |frontier| && frontier[k] == x;
      assert FindPareto(comparisons)[k] == x.arm;
    }
  }

  /** With distinct names, the frontier is exactly what no eligible comparison is cheaper than. */
  lemma OnFrontierIff(comparisons: seq<Comparison>, x: Comparison)
    requires DistinctArms(comparisons) && x in comparisons
    ensures x in Frontier(comparisons) <==>
              && x.eligible
              && forall j :: 0 <= j < |comparisons| && comparisons[j].eligible ==> !Cheaper(comparisons[j], x)
  {
    hide Frontier, Eligible, Cheaper;
    FrontierIs(comparisons);
    CheaperIsStrictOrder();
    var eligible := Eligible(comparisons);
    if x.eligible && !(x in Frontier(comparisons)) {
      var k :| 0 <= k < |eligible| && eligible[k].arm != x.arm && Cheaper(eligible[k], x);
      assert eligible[k] in eligible;
      var j :| 0 <= j < |comparisons| && comparisons[j] == eligible[k];
    }
    if x in Frontier(comparisons) {
      forall j | 0 <= j < |comparisons| && comparisons[j].eligible ensures !Cheaper(comparisons[j], x) {
        assert comparisons[j] in comparisons && comparisons[j] in eligible;
        var k :| 0 <= k < |eligible| && eligible[k] == comparisons[j];
        assert eligible[k].arm == x.arm ==> eligible[k] == x;
      }
    }
  }

  lemma GzipMeasured(g: ArmSummary)
    requires CompareWith(g, g).Ok?
    ensures Measured(g, LATENCY_SCENARIOS)
  {
  }

  lemma RatioKeepsOrder(x: real, y: real, g: real)
    requires g > 0.0 && x <= y
    ensures Leq(RoundNumber(Divide(x, g)), RoundNumber(Divide(y, g)))
  {
    assert x / g <= y / g by {
      assert y / g - x / g == (y - x) / g;
    }
    RoundIsMonotone(x / g, y / g);
  }

  /** An arm measured no costlier than another, in infrastructure and in CPU, is never dominated by it. */
  lemma CostlierNeverDominates(c: ArmSummary, d: ArmSummary, g: ArmSummary)
    requires CompareWith(c, g).Ok? && CompareWith(d, g).Ok?
    requires g.measuredInfrastructureGB > 0.0 && g.cpuMsPerThousandEvents > 0.0
    requires c.measuredInfrastructureGB <= d.measuredInfrastructureGB
    requires c.cpuMsPerThousandEvents <= d.cpuMsPerThousandEvents
    ensures !Beats(CompareWith(d, g).value, CompareWith(c, g).value)
  {
    CheaperIff();
    hide LatencyReasons, CpuReasons, RoundNumber, Divide, Leq, Beats;
    RatioKeepsOrder(c.measuredInfrastructureGB, d.measuredInfrastructureGB, g.measuredInfrastructureGB);
    RatioKeepsOrder(c.cpuMsPerThousandEvents, d.cpuMsPerThousandEvents, g.cpuMsPerThousandEvents);
  }

  // ----- four objectives -----

  datatype Row = Row(arm: string, docsPerSec: real, clientCpuMs: real, openSearchCpuMs: real, requestP95Ms: real)

  /** No worse in all four and better in one. */
  predicate BetterRow(x: Row, y: Row) {
    && x.docsPerSec >= y.docsPerSec && x.clientCpuMs <= y.clientCpuMs
    && x.openSearchCpuMs <= y.openSearchCpuMs && x.requestP95Ms <= y.requestP95Ms
    && (x.docsPerSec > y.docsPerSec || x.clientCpuMs < y.clientCpuMs
        || x.openSearchCpuMs < y.openSearchCpuMs || x.requestP95Ms < y.requestP95Ms)
  }

  ghost predicate NoWorse(x: Row, y: Row) {
    && x.docsPerSec >= y.docsPerSec && x.clientCpuMs <= y.clientCpuMs
    && x.openSearchCpuMs <= y.openSearchCpuMs && x.requestP95Ms <= y.requestP95Ms
  }

  /** No worse in all four, and not the other way round. */
  ghost predicate Outdoes(x: Row, y: Row) {
    NoWorse(x, y) && !NoWorse(y, x)
  }

  lemma BetterRowIff()
    ensures forall x, y :: BetterRow(x, y) <==> Outdoes(x, y)
  {
  }

  /** `rows.some(other => other !== candidate && ...)`: rows are told apart by where they stand. */
  predicate BeatenAt(rows: seq<Row>, k: nat)
    requires k < |rows|
  {
    exists i :: 0 <= i < |rows| && i != k && BetterRow(rows[i], rows[k])
  }

  /** The rows kept among the first n. */
  function KeptRows(rows: seq<Row>, n: nat): seq<Row>
    requires n <= |rows|
  {
    if n == 0 then []
    else KeptRows(rows, n - 1) + if BeatenAt(rows, n - 1) then [] else [rows[n - 1]]
  }

  function Pareto(rows: seq<Row>): seq<Row> {
    KeptRows(rows, |rows|)
  }

  lemma BetterRowIsStrictOrder()
    ensures StrictOrder(BetterRow)
  {
  }

  /** A row never beats itself, so telling rows apart changes nothing. */
  lemma BeatenIff(rows: seq<Row>, k: nat)
    requires k < |rows|
    ensures BeatenAt(rows, k) <==> !Unbeaten(BetterRow, rows, rows[k])
  {
  }

  lemma {:induction false} KeptAre(rows: seq<Row>, n: nat)
    requires n <= |rows|
    ensures forall x :: x in KeptRows(rows, n) <==> x in rows[..n] && Unbeaten(BetterRow, rows, x)
  {
    if n > 0 {
      KeptAre(rows, n - 1);
      BeatenIff(rows, n - 1);
      assert rows[..n] == rows[..n - 1] + [rows[n - 1]];
    }
  }

  /** The four-objective frontier is exactly the unbeaten rows. */
  lemma ParetoIs(rows: seq<Row>)
    ensures forall x :: x in Pareto(rows) <==> x in rows && forall y :: y in rows ==> !Outdoes(y, x)
  {
    BetterRowIff();
    forall x ensures Unbeaten(BetterRow, rows, x) <==> forall y :: y in rows ==> !Outdoes(y, x) {
      assert forall i :: 0 <= i < |rows| ==> rows[i] in rows;
    }
    hide BetterRow, Outdoes;
    KeptAre(rows, |rows|);
    assert rows[..|rows|] == rows;
  }

  /** Every row off the frontier is beaten by one on it, and no row on it beats another. */
  lemma ParetoCovers(rows: seq<Row>, x: Row) returns (top: Row)
    requires x in rows
    ensures top in Pareto(rows) && (x !in Pareto(rows) ==> Outdoes(top, x))
    ensures x in Pareto(rows) ==> forall y :: y in Pareto(rows) ==> !Outdoes(y, x)
  {
    BetterRowIsStrictOrder();
    BetterRowIff();
    hide BetterRow, Outdoes;
    ParetoIs(rows);
    top := Climb(BetterRow, rows, x);
    assert forall y :: y in rows ==> !Outdoes(y, top);
  }

  lemma ParetoIsEmptyIff(rows: seq<Row>)
    ensures Pareto(rows) == [] <==> rows == []
  {
    if rows != [] {
      var top := ParetoCovers(rows, rows[0]);
    }
  }
}

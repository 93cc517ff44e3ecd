/**
 The summary of nine evidence cases: one per replica count and scenario, with distinct identities
 and one namespace per replica arm (fedify-sidecar/src/adsp/P2W3EvidenceSummary.ts).
 */
module EvidenceSummary {
  import opened Prelude
  import opened JsonTree
  import opened Ordering
  import opened TargetLedger

  const REPLICA_COUNTS: seq<nat> := [1, 2, 4]
  const SCENARIOS: seq<Scenario> := [Success, Transient, Permanent]
  const TRANSIENT_FAILURES_BEFORE_SUCCESS: nat := 2
  const CORRELATION_SCHEMA: string := "adsp.p2.w3.origin-correlation.v1"
  const SETTLEMENT_SCHEMA: string := "adsp.p0.activitypods-origin-settlement.v1"

  /** The parts of one case as they come from files; a missing part reads as null. */
  datatype CaseEvidence =
    CaseEvidence(replicas: Json, scenario: Json, origin: Json, correlation: Json, settlement: Json)

  /** What the origin evidence says; the outbound job id may fail to be derived. */
  datatype Origin = Origin(activityId: string, deliveryPlanIntentId: string, expectedJobId: Option<string>)

  type OriginParser = Json -> Option<Origin>

  datatype Correlation = Correlation(
    requestId: string, activityId: string, moleculerNamespace: string, expectedReplicas: nat)

  datatype Settlement = Settlement(
    scenario: Scenario, activityId: string, intentId: string, jobId: string,
    eventLogPublishedAt: nat, observedRequests: nat, observedBodySha256: string)

  datatype ValidatedCase = ValidatedCase(
    replicas: nat, scenario: Scenario, activityId: string, intentId: string, requestId: string, jobId: string,
    eventLogPublishedAt: nat, observedRequests: nat, observedBodySha256: string, moleculerNamespace: string)

  datatype EvidenceError =
    | Malformed(what: string)
    | Drift(what: string)
    | NotNineCases
    | DuplicateCoordinate(replicas: nat, scenario: Scenario)
    | DuplicateActivity(id: string)
    | DuplicateRequest(id: string)
    | DuplicateIntent(id: string)
    | DuplicateJob(id: string)
    | NamespaceNotShared(replicas: nat)
    | NamespaceMissing(replicas: nat)
    | NamespaceReused(namespace: string)
    | MissingCoordinate(replicas: nat, scenario: Scenario)

  // ----- reading one case -----

  predicate IsExact(s: string) {
    s != "" && Trim(s) == s
  }

  predicate IsSha256(s: string) {
    |s| == 64 && forall i :: 0 <= i < |s| ==> 'a' <= s[i] <= 'f' || '0' <= s[i] <= '9'
  }

  function Exact(what: string, value: Option<Json>): Result<string, EvidenceError> {
    match value
    case Some(JString(s)) => if IsExact(s) then Ok(s) else Err(Malformed(what))
    case _ => Err(Malformed(what))
  }

  function Sha256(what: string, value: Option<Json>): Result<string, EvidenceError> {
    var digest :- Exact(what, value);
    if IsSha256(digest) then Ok(digest) else Err(Malformed(what))
  }

  function ReplicaCount(value: Option<Json>): Result<nat, EvidenceError> {
    if value == Some(JNumber(1.0)) then Ok(1)
    else if value == Some(JNumber(2.0)) then Ok(2)
    else if value == Some(JNumber(4.0)) then Ok(4)
    else Err(Malformed("replicas"))
  }

  function ExpectedObservedRequests(s: Scenario): nat {
    if s == Transient then TRANSIENT_FAILURES_BEFORE_SUCCESS + 1 else 1
  }

  const CORRELATION_KEYS: set<string> :=
    {"schema", "requestId", "activityId", "moleculerNamespace", "expectedReplicas"}

  const SETTLEMENT_KEYS: set<string> :=
    {"ok", "schema", "scenario", "activityId", "intentId", "jobId", "eventLogPublishedAt", "observedBodySha256",
     "observedRequests", "errors"}

  predicate HasOnlyKeys(value: Json, allowed: set<string>) {
    value.JObject? && value.fields.Keys <= allowed
  }

  function ParseCorrelation(value: Json): Result<Correlation, EvidenceError> {
    if !HasOnlyKeys(value, CORRELATION_KEYS) then Err(Malformed("correlation"))
    else if Field(value, "schema") != Some(JString(CORRELATION_SCHEMA)) then Err(Malformed("correlation schema"))
    else
      ReadCorrelation(Field(value, "requestId"), Field(value, "activityId"), Field(value, "moleculerNamespace"),
                      Field(value, "expectedReplicas"))
  }

  function ReadCorrelation(
      requestId: Option<Json>, activityId: Option<Json>, moleculerNamespace: Option<Json>, replicas: Option<Json>)
    : Result<Correlation, EvidenceError>
  {
    var requestId :- Exact("correlation requestId", requestId);
    var activityId :- Exact("correlation activityId", activityId);
    var namespace :- Exact("correlation moleculerNamespace", moleculerNamespace);
    var replicas :- ReplicaCount(replicas);
    Ok(Correlation(requestId, activityId, namespace, replicas))
  }

  function ParseSettlement(value: Json): Result<Settlement, EvidenceError> {
    if !HasOnlyKeys(value, SETTLEMENT_KEYS) then Err(Malformed("settlement"))
    else if Field(value, "ok") != Some(JBool(true)) then Err(Malformed("settlement ok"))
    else if Field(value, "schema") != Some(JString(SETTLEMENT_SCHEMA)) then Err(Malformed("settlement schema"))
    else if Field(value, "errors") != Some(JArray([])) then Err(Malformed("settlement errors"))
    else
      ReadSettlement(
        Field(value, "scenario"), Field(value, "activityId"), Field(value, "intentId"), Field(value, "jobId"),
        Field(value, "eventLogPublishedAt"), Field(value, "observedRequests"), Field(value, "observedBodySha256"))
  }

  function ReadSettlement(
      scenario: Option<Json>, activityId: Option<Json>, intentId: Option<Json>, jobId: Option<Json>,
      publishedAt: Option<Json>, observedRequests: Option<Json>, bodySha256: Option<Json>)
    : Result<Settlement, EvidenceError>
  {
    var scenario :- ScenarioFrom(scenario, Malformed("scenario"));
    var activityId :- Exact("settlement activityId", activityId);
    var intentId :- Exact("settlement intentId", intentId);
    var jobId :- Exact("settlement jobId", jobId);
    var publishedAt :- SafeIntegerFrom(publishedAt, 1, Malformed("settlement eventLogPublishedAt"));
    var observedRequests :- SafeIntegerFrom(observedRequests, 0, Malformed("settlement observedRequests"));
    var bodySha256 :- Sha256("settlement observedBodySha256", bodySha256);
    Ok(Settlement(scenario, activityId, intentId, jobId, publishedAt, observedRequests, bodySha256))
  }

  function Agree(replicas: nat, scenario: Scenario, origin: Origin, c: Correlation, s: Settlement)
    : Result<ValidatedCase, EvidenceError>
  {
    if c.expectedReplicas != replicas then Err(Drift("replica count"))
    else if s.scenario != scenario then Err(Drift("scenario"))
    else if c.activityId != origin.activityId || s.activityId != origin.activityId then Err(Drift("Activity identity"))
    else if s.intentId != origin.deliveryPlanIntentId then Err(Drift("Delivery Plan intent"))
    else if origin.expectedJobId.None? then Err(Malformed("origin delivery URL"))
    else if s.jobId != origin.expectedJobId.value then Err(Drift("outbound job identity"))
    else if s.observedRequests != ExpectedObservedRequests(scenario) then Err(Drift("observed request count"))
    else Ok(ValidatedCase(
      replicas, scenario, origin.activityId, origin.deliveryPlanIntentId, c.requestId, s.jobId,
      s.eventLogPublishedAt, s.observedRequests, s.observedBodySha256, c.moleculerNamespace))
  }

  function ValidateCase(parse: OriginParser, input: CaseEvidence): Result<ValidatedCase, EvidenceError> {
    var replicas :- ReplicaCount(Some(input.replicas));
    var scenario :- ScenarioFrom(Some(input.scenario), Malformed("scenario"));
    match parse(input.origin)
    case None => Err(Malformed("origin"))
    case Some(origin) =>
      var correlation :- ParseCorrelation(input.correlation);
      var settlement :- ParseSettlement(input.settlement);
      Agree(replicas, scenario, origin, correlation, settlement)
  }

  // ----- what an accepted case is -----

  /** 64 hexadecimal digits in lower case. */
  ghost predicate HexDigest(s: string) {
    |s| == 64 && forall c :: c in s ==> c in "0123456789abcdef"
  }

  ghost predicate WellFormedCase(v: ValidatedCase) {
    && (v.replicas == 1 || v.replicas == 2 || v.replicas == 4)
    && ExactText(v.activityId) && ExactText(v.intentId) && ExactText(v.requestId) && ExactText(v.jobId)
    && ExactText(v.moleculerNamespace) && HexDigest(v.observedBodySha256)
    && 1 <= v.eventLogPublishedAt && SafeInteger(v.eventLogPublishedAt)
    && v.observedRequests == RequestsToSettle(v.scenario, TRANSIENT_FAILURES_BEFORE_SUCCESS)
  }

  /** The correlation document says this of the case, and nothing besides. */
  ghost predicate Correlates(value: Json, v: ValidatedCase) {
    && value.JObject?
    && value.fields.Keys == {"schema", "requestId", "activityId", "moleculerNamespace", "expectedReplicas"}
    && value.fields["schema"] == JString("adsp.p2.w3.origin-correlation.v1")
    && value.fields["requestId"] == JString(v.requestId)
    && value.fields["activityId"] == JString(v.activityId)
    && value.fields["moleculerNamespace"] == JString(v.moleculerNamespace)
    && value.fields["expectedReplicas"] == JNumber(v.replicas as real)
  }

  /** The settlement document reports success without errors, says this of the case, and nothing besides. */
  ghost predicate Settles(value: Json, v: ValidatedCase) {
    && value.JObject?
    && value.fields.Keys == {"ok", "schema", "scenario", "activityId", "intentId", "jobId", "eventLogPublishedAt",
                             "observedBodySha256", "observedRequests", "errors"}
    && value.fields["ok"] == JBool(true) && value.fields["errors"] == JArray([])
    && value.fields["schema"] == JString("adsp.p0.activitypods-origin-settlement.v1")
    && Names(value.fields["scenario"], v.scenario)
    && value.fields["activityId"] == JString(v.activityId)
    && value.fields["intentId"] == JString(v.intentId)
    && value.fields["jobId"] == JString(v.jobId)
    && value.fields["eventLogPublishedAt"] == JNumber(v.eventLogPublishedAt as real)
    && value.fields["observedRequests"] == JNumber(v.observedRequests as real)
    && value.fields["observedBodySha256"] == JString(v.observedBodySha256)
  }

  ghost predicate Names(value: Json, s: Scenario) {
    || (s == Success && value == JString("success"))
    || (s == Transient && value == JString("transient"))
    || (s == Permanent && value == JString("permanent"))
  }

  /** The evidence reports this case throughout: its coordinate, its origin, its correlation and its settlement. */
  ghost predicate Reports(parse: OriginParser, input: CaseEvidence, v: ValidatedCase) {
    && input.replicas == JNumber(v.replicas as real) && Names(input.scenario, v.scenario)
    && parse(input.origin) == Some(Origin(v.activityId, v.intentId, Some(v.jobId)))
    && Correlates(input.correlation, v) && Settles(input.settlement, v)
  }

  lemma ExactIs(what: string, value: Option<Json>, s: string)
    ensures Exact(what, value) == Ok(s) <==> value == Some(JString(s)) && ExactText(s)
  {
    ExactIff(s);
    hide Trim, ExactText;
  }

  lemma HexDigits(c: char)
    ensures c in "0123456789abcdef" <==> ('a' <= c <= 'f' || '0' <= c <= '9')
    ensures c in "0123456789abcdef" ==> c !in WHITE_SPACE
  {
    var digits := "0123456789abcdef";
    if 'a' <= c <= 'f' {
      assert digits[c as int - 87] == c;
    } else if '0' <= c <= '9' {
      assert digits[c as int - 48] == c;
    }
    SpacesAre(c);
  }

  lemma DigestIs(s: string)
    ensures IsSha256(s) <==> HexDigest(s)
    ensures HexDigest(s) ==> ExactText(s)
  {
    forall c {
      HexDigits(c);
    }
    assert forall i :: 0 <= i < |s| ==> s[i] in s;
  }

  lemma Sha256Is(what: string, value: Option<Json>, s: string)
    ensures Sha256(what, value) == Ok(s) <==> value == Some(JString(s)) && HexDigest(s)
  {
    hide Exact, IsSha256, HexDigest, ExactText;
    ExactIs(what, value, s);
    DigestIs(s);
  }

  lemma ReplicaCountIs(value: Option<Json>, n: nat)
    ensures ReplicaCount(value) == Ok(n)
       <==> (n == 1 || n == 2 || n == 4) && value == Some(JNumber(n as real))
  {
  }

  lemma ScenarioIs(value: Option<Json>, error: EvidenceError, s: Scenario)
    ensures ScenarioFrom(value, error) == Ok(s) <==> value.Some? && Names(value.value, s)
  {
  }

  lemma NumberIs(value: Option<Json>, least: nat, error: EvidenceError, n: nat)
    ensures SafeIntegerFrom(value, least, error) == Ok(n)
       <==> value == Some(JNumber(n as real)) && least <= n && SafeInteger(n)
  {
    if value.Some? && value.value.JNumber? && value.value.n == value.value.n.Floor as real {
      assert value.value.n == n as real <==> value.value.n.Floor == n;
    }
  }

  /** What a correlation is read to. */
  ghost predicate SaysCorrelation(value: Json, c: Correlation) {
    && value.JObject?
    && value.fields.Keys == {"schema", "requestId", "activityId", "moleculerNamespace", "expectedReplicas"}
    && value.fields["schema"] == JString("adsp.p2.w3.origin-correlation.v1")
    && value.fields["requestId"] == JString(c.requestId) && ExactText(c.requestId)
    && value.fields["activityId"] == JString(c.activityId) && ExactText(c.activityId)
    && value.fields["moleculerNamespace"] == JString(c.moleculerNamespace) && ExactText(c.moleculerNamespace)
    && value.fields["expectedReplicas"] == JNumber(c.expectedReplicas as real)
    && (c.expectedReplicas == 1 || c.expectedReplicas == 2 || c.expectedReplicas == 4)
  }

  lemma ReadCorrelationIs(
      requestId: Option<Json>, activityId: Option<Json>, moleculerNamespace: Option<Json>, replicas: Option<Json>,
      c: Correlation)
    ensures ReadCorrelation(requestId, activityId, moleculerNamespace, replicas) == Ok(c)
       <==> && requestId == Some(JString(c.requestId)) && ExactText(c.requestId)
            && activityId == Some(JString(c.activityId)) && ExactText(c.activityId)
            && moleculerNamespace == Some(JString(c.moleculerNamespace)) && ExactText(c.moleculerNamespace)
            && replicas == Some(JNumber(c.expectedReplicas as real))
            && (c.expectedReplicas == 1 || c.expectedReplicas == 2 || c.expectedReplicas == 4)
  {
    hide Exact, ExactText, ReplicaCount;
    ExactIs("correlation requestId", requestId, c.requestId);
    ExactIs("correlation activityId", activityId, c.activityId);
    ExactIs("correlation moleculerNamespace", moleculerNamespace, c.moleculerNamespace);
    ReplicaCountIs(replicas, c.expectedReplicas);
  }

  lemma CorrelationIs(value: Json, c: Correlation)
    ensures ParseCorrelation(value) == Ok(c) <==> SaysCorrelation(value, c)
  {
    hide ReadCorrelation, ExactText;
    ReadCorrelationIs(Field(value, "requestId"), Field(value, "activityId"), Field(value, "moleculerNamespace"),
                      Field(value, "expectedReplicas"), c);
    if value.JObject? && value.fields.Keys <= CORRELATION_KEYS && CORRELATION_KEYS <= value.fields.Keys {
      assert value.fields.Keys == CORRELATION_KEYS;
    }
  }

  /** What a settlement is read to. */
  ghost predicate SaysSettlement(value: Json, s: Settlement) {
    && value.JObject?
    && value.fields.Keys == {"ok", "schema", "scenario", "activityId", "intentId", "jobId", "eventLogPublishedAt",
                             "observedBodySha256", "observedRequests", "errors"}
    && value.fields["ok"] == JBool(true) && value.fields["errors"] == JArray([])
    && value.fields["schema"] == JString("adsp.p0.activitypods-origin-settlement.v1")
    && SaysFields(Some(value.fields["scenario"]), Some(value.fields["activityId"]), Some(value.fields["intentId"]),
                  Some(value.fields["jobId"]), Some(value.fields["eventLogPublishedAt"]),
                  Some(value.fields["observedRequests"]), Some(value.fields["observedBodySha256"]), s)
  }

  ghost predicate SaysFields(
      scenario: Option<Json>, activityId: Option<Json>, intentId: Option<Json>, jobId: Option<Json>,
      publishedAt: Option<Json>, observedRequests: Option<Json>, bodySha256: Option<Json>, s: Settlement)
  {
    && scenario.Some? && Names(scenario.value, s.scenario)
    && activityId == Some(JString(s.activityId)) && ExactText(s.activityId)
    && intentId == Some(JString(s.intentId)) && ExactText(s.intentId)
    && jobId == Some(JString(s.jobId)) && ExactText(s.jobId)
    && publishedAt == Some(JNumber(s.eventLogPublishedAt as real))
    && 1 <= s.eventLogPublishedAt && SafeInteger(s.eventLogPublishedAt)
    && observedRequests == Some(JNumber(s.observedRequests as real)) && SafeInteger(s.observedRequests)
    && bodySha256 == Some(JString(s.observedBodySha256)) && HexDigest(s.observedBodySha256)
  }

  lemma ReadSettlementIs(
      scenario: Option<Json>, activityId: Option<Json>, intentId: Option<Json>, jobId: Option<Json>,
      publishedAt: Option<Json>, observedRequests: Option<Json>, bodySha256: Option<Json>, s: Settlement)
    ensures ReadSettlement(scenario, activityId, intentId, jobId, publishedAt, observedRequests, bodySha256) == Ok(s)
       <==> SaysFields(scenario, activityId, intentId, jobId, publishedAt, observedRequests, bodySha256, s)
  {
    hide Exact, ExactText, Sha256, HexDigest, ScenarioFrom, Names, SafeIntegerFrom, SafeInteger;
    ScenarioIs(scenario, Malformed("scenario"), s.scenario);
    ExactIs("settlement activityId", activityId, s.activityId);
    ExactIs("settlement intentId", intentId, s.intentId);
    ExactIs("settlement jobId", jobId, s.jobId);
    NumberIs(publishedAt, 1, Malformed("settlement eventLogPublishedAt"), s.eventLogPublishedAt);
    NumberIs(observedRequests, 0, Malformed("settlement observedRequests"), s.observedRequests);
    Sha256Is("settlement observedBodySha256", bodySha256, s.observedBodySha256);
  }

  lemma FieldsAreThere(value: Json, s: Settlement)
    requires SaysFields(
      Field(value, "scenario"), Field(value, "activityId"), Field(value, "intentId"), Field(value, "jobId"),
      Field(value, "eventLogPublishedAt"), Field(value, "observedRequests"), Field(value, "observedBodySha256"), s)
    ensures value.JObject?
    ensures {"scenario", "activityId", "intentId", "jobId", "eventLogPublishedAt", "observedRequests",
             "observedBodySha256"} <= value.fields.Keys
  {
  }

  lemma SettlementIs(value: Json, s: Settlement)
    ensures ParseSettlement(value) == Ok(s) <==> SaysSettlement(value, s)
  {
    hide ReadSettlement, SaysFields;
    ReadSettlementIs(
      Field(value, "scenario"), Field(value, "activityId"), Field(value, "intentId"), Field(value, "jobId"),
      Field(value, "eventLogPublishedAt"), Field(value, "observedRequests"), Field(value, "observedBodySha256"), s);
    if value.JObject? && value.fields.Keys <= SETTLEMENT_KEYS && SETTLEMENT_KEYS <= value.fields.Keys {
      assert value.fields.Keys == SETTLEMENT_KEYS;
    }
    if ReadSettlement(
         Field(value, "scenario"), Field(value, "activityId"), Field(value, "intentId"), Field(value, "jobId"),
         Field(value, "eventLogPublishedAt"), Field(value, "observedRequests"), Field(value, "observedBodySha256"))
       == Ok(s)
    {
      FieldsAreThere(value, s);
    }
  }

  function CorrelationOf(v: ValidatedCase): Correlation {
    Correlation(v.requestId, v.activityId, v.moleculerNamespace, v.replicas)
  }

  function SettlementOf(v: ValidatedCase): Settlement {
    Settlement(v.scenario, v.activityId, v.intentId, v.jobId, v.eventLogPublishedAt, v.observedRequests,
               v.observedBodySha256)
  }

  ghost predicate Agreed(
      replicas: nat, scenario: Scenario, origin: Origin, c: Correlation, s: Settlement, v: ValidatedCase)
  {
    && replicas == v.replicas && scenario == v.scenario
    && origin == Origin(v.activityId, v.intentId, Some(v.jobId))
    && c == CorrelationOf(v) && s == SettlementOf(v)
    && v.observedRequests == RequestsToSettle(v.scenario, TRANSIENT_FAILURES_BEFORE_SUCCESS)
  }

  lemma AgreeIs(replicas: nat, scenario: Scenario, origin: Origin, c: Correlation, s: Settlement, v: ValidatedCase)
    ensures Agree(replicas, scenario, origin, c, s) == Ok(v) <==> Agreed(replicas, scenario, origin, c, s, v)
  {
  }

  lemma SaidOfCase(input: CaseEvidence, v: ValidatedCase)
    ensures WellFormedCase(v) && Correlates(input.correlation, v) && Settles(input.settlement, v)
       <==> && SaysCorrelation(input.correlation, CorrelationOf(v)) && SaysSettlement(input.settlement, SettlementOf(v))
            && v.observedRequests == RequestsToSettle(v.scenario, TRANSIENT_FAILURES_BEFORE_SUCCESS)
  {
    hide ExactText, HexDigest, Names;
  }

  /**
   A case is accepted exactly when it is well formed and the evidence reports it throughout; in every other case the
   evidence is refused.
   */
  lemma ValidateIff(parse: OriginParser, input: CaseEvidence, v: ValidatedCase)
    ensures ValidateCase(parse, input) == Ok(v) <==> WellFormedCase(v) && Reports(parse, input, v)
  {
    hide ReplicaCount, ScenarioFrom, ParseCorrelation, ParseSettlement, Agree, ExactText, HexDigest, Names;
    var c, s := CorrelationOf(v), SettlementOf(v);
    ReplicaCountIs(Some(input.replicas), v.replicas);
    ScenarioIs(Some(input.scenario), Malformed("scenario"), v.scenario);
    CorrelationIs(input.correlation, c);
    SettlementIs(input.settlement, s);
    SaidOfCase(input, v);
    hide SaysCorrelation, SaysSettlement, Correlates, Settles;
    forall replicas, scenario, origin, c', s'
      ensures Agree(replicas, scenario, origin, c', s') == Ok(v)
         <==> Agreed(replicas, scenario, origin, c', s', v)
    {
      AgreeIs(replicas, scenario, origin, c', s', v);
    }
  }

  // ----- summarising nine cases -----

  datatype Coordinate = Coordinate(replicas: nat, scenario: Scenario)

  function CoordinateOf(v: ValidatedCase): Coordinate {
    Coordinate(v.replicas, v.scenario)
  }

  function ActivityIdOf(v: ValidatedCase): string {
    v.activityId
  }

  function RequestIdOf(v: ValidatedCase): string {
    v.requestId
  }

  function IntentIdOf(v: ValidatedCase): string {
    v.intentId
  }

  function JobIdOf(v: ValidatedCase): string {
    v.jobId
  }

  /** The five sets of identities seen so far. */
  datatype Seen = Seen(
    coordinates: set<Coordinate>, activityIds: set<string>, requestIds: set<string>, intentIds: set<string>,
    jobIds: set<string>)
  {
    function With(v: ValidatedCase): Seen {
      Seen(coordinates + {CoordinateOf(v)}, activityIds + {v.activityId}, requestIds + {v.requestId},
           intentIds + {v.intentId}, jobIds + {v.jobId})
    }

    function Clash(v: ValidatedCase): Option<EvidenceError> {
      if CoordinateOf(v) in coordinates then Some(DuplicateCoordinate(v.replicas, v.scenario))
      else if v.activityId in activityIds then Some(DuplicateActivity(v.activityId))
      else if v.requestId in requestIds then Some(DuplicateRequest(v.requestId))
      else if v.intentId in intentIds then Some(DuplicateIntent(v.intentId))
      else if v.jobId in jobIds then Some(DuplicateJob(v.jobId))
      else None
    }
  }

  function SeenIn(items: seq<ValidatedCase>): Seen {
    if items == [] then Seen({}, {}, {}, {}, {}) else SeenIn(items[..|items| - 1]).With(items[|items| - 1])
  }

  function FirstClash(items: seq<ValidatedCase>): Option<EvidenceError> {
    if items == [] then None
    else
      var front := items[..|items| - 1];
      var earlier := FirstClash(front);
      if earlier.Some? then earlier else SeenIn(front).Clash(items[|items| - 1])
  }

  lemma {:induction false} ClashStays(items: seq<ValidatedCase>, n: nat)
    requires n <= |items| && FirstClash(items[..n]).Some?
    ensures FirstClash(items) == FirstClash(items[..n])
  {
    if n < |items| {
      assert items[..|items| - 1][..n] == items[..n];
      ClashStays(items[..|items| - 1], n);
    } else {
      assert items[..n] == items;
    }
  }

  /** The namespaces of one arm, each once, in order of first appearance. */
  function Namespaces(items: seq<ValidatedCase>, replicas: nat): seq<string> {
    if items == [] then []
    else
      var front, last := Namespaces(items[..|items| - 1], replicas), items[|items| - 1];
      if last.replicas == replicas then Add(front, last.moleculerNamespace) else front
  }

  /** The namespaces of the first k arms. */
  function ArmNamespaces(items: seq<ValidatedCase>, k: nat): set<string>
    requires k <= |REPLICA_COUNTS|
  {
    if k == 0 then {} else ArmNamespaces(items, k - 1) + Elements(Namespaces(items, REPLICA_COUNTS[k - 1]))
  }

  function FirstMissing(coordinates: set<Coordinate>, replicas: nat, j: nat): Option<EvidenceError>
    requires j <= |SCENARIOS|
  {
    if j == 0 then None
    else
      var earlier := FirstMissing(coordinates, replicas, j - 1);
      if earlier.Some? then earlier
      else if Coordinate(replicas, SCENARIOS[j - 1]) !in coordinates then
        Some(MissingCoordinate(replicas, SCENARIOS[j - 1]))
      else None
  }

  function ArmError(items: seq<ValidatedCase>, k: nat): Option<EvidenceError>
    requires k < |REPLICA_COUNTS|
  {
    var replicas := REPLICA_COUNTS[k];
    var namespaces := Namespaces(items, replicas);
    if |namespaces| != 1 then Some(NamespaceNotShared(replicas))
    else if namespaces[0] == "" then Some(NamespaceMissing(replicas))
    else if namespaces[0] in ArmNamespaces(items, k) then Some(NamespaceReused(namespaces[0]))
    else FirstMissing(SeenIn(items).coordinates, replicas, |SCENARIOS|)
  }

  /** The first error of the first k arms. */
  function ArmsError(items: seq<ValidatedCase>, k: nat): Option<EvidenceError>
    requires k <= |REPLICA_COUNTS|
  {
    if k == 0 then None
    else
      var earlier := ArmsError(items, k - 1);
      if earlier.Some? then earlier else ArmError(items, k - 1)
  }

  function ScenarioIndex(s: Scenario): nat {
    match s
    case Success => 0
    case Transient => 1
    case Permanent => 2
  }

  predicate CaseLeq(a: ValidatedCase, b: ValidatedCase) {
    a.replicas < b.replicas || (a.replicas == b.replicas && ScenarioIndex(a.scenario) <= ScenarioIndex(b.scenario))
  }

  function Validator(parse: OriginParser): CaseEvidence -> Result<ValidatedCase, EvidenceError> {
    input => ValidateCase(parse, input)
  }

  function Summarize(parse: OriginParser, inputs: seq<CaseEvidence>): Result<seq<ValidatedCase>, EvidenceError> {
    if |inputs| != |REPLICA_COUNTS| * |SCENARIOS| then Err(NotNineCases)
    else
      var validated :- Traverse(Validator(parse), inputs);
      SummaryOf(validated)
  }

  function SummaryOf(validated: seq<ValidatedCase>): Result<seq<ValidatedCase>, EvidenceError> {
    if FirstClash(validated).Some? then Err(FirstClash(validated).value)
    else if ArmsError(validated, |REPLICA_COUNTS|).Some? then Err(ArmsError(validated, |REPLICA_COUNTS|).value)
    else Ok(Sort(CaseLeq, validated))
  }

  /** The identity loop, filling one set per kind of identity. */
  method CheckIdentities(validated: seq<ValidatedCase>)
    returns (error: Option<EvidenceError>, seenCoordinates: set<Coordinate>)
    ensures error == FirstClash(validated)
    ensures error.None? ==> seenCoordinates == SeenIn(validated).coordinates
  {
    error, seenCoordinates := None, {};
    var activityIds, requestIds, intentIds, jobIds := {}, {}, {}, {};
    for i := 0 to |validated|
      invariant Seen(seenCoordinates, activityIds, requestIds, intentIds, jobIds) == SeenIn(validated[..i])
      invariant FirstClash(validated[..i]).None? && error.None?
    {
      var item := validated[i];
      assert validated[..i + 1][..i] == validated[..i];
      ghost var clash := SeenIn(validated[..i]).Clash(item);
      assert FirstClash(validated[..i + 1]) == clash;
      if clash.Some? {
        ClashStays(validated, i + 1);
      }
      if CoordinateOf(item) in seenCoordinates {
        return Some(DuplicateCoordinate(item.replicas, item.scenario)), seenCoordinates;
      }
      seenCoordinates := seenCoordinates + {CoordinateOf(item)};
      if item.activityId in activityIds {
        return Some(DuplicateActivity(item.activityId)), seenCoordinates;
      }
      activityIds := activityIds + {item.activityId};
      if item.requestId in requestIds {
        return Some(DuplicateRequest(item.requestId)), seenCoordinates;
      }
      requestIds := requestIds + {item.requestId};
      if item.intentId in intentIds {
        return Some(DuplicateIntent(item.intentId)), seenCoordinates;
      }
      intentIds := intentIds + {item.intentId};
      if item.jobId in jobIds {
        return Some(DuplicateJob(item.jobId)), seenCoordinates;
      }
      jobIds := jobIds + {item.jobId};
    }
    assert validated[..|validated|] == validated;
  }

  lemma {:induction false} ArmErrorStays(items: seq<ValidatedCase>, k: nat, n: nat)
    requires k <= n <= |REPLICA_COUNTS| && ArmsError(items, k).Some?
    ensures ArmsError(items, n) == ArmsError(items, k)
  {
    if k < n {
      ArmErrorStays(items, k, n - 1);
    }
  }

  lemma {:induction false} MissingStays(coordinates: set<Coordinate>, replicas: nat, j: nat, n: nat)
    requires j <= n <= |SCENARIOS| && FirstMissing(coordinates, replicas, j).Some?
    ensures FirstMissing(coordinates, replicas, n) == FirstMissing(coordinates, replicas, j)
  {
    if j < n {
      MissingStays(coordinates, replicas, j, n - 1);
    }
  }

  method CheckScenarios(seenCoordinates: set<Coordinate>, replicas: nat) returns (error: Option<EvidenceError>)
    ensures error == FirstMissing(seenCoordinates, replicas, |SCENARIOS|)
  {
    for j := 0 to |SCENARIOS|
      invariant FirstMissing(seenCoordinates, replicas, j).None?
    {
      if Coordinate(replicas, SCENARIOS[j]) !in seenCoordinates {
        MissingStays(seenCoordinates, replicas, j + 1, |SCENARIOS|);
        return Some(MissingCoordinate(replicas, SCENARIOS[j]));
      }
    }
    error := None;
  }

  /** The replica-arm loop. */
  method CheckArms(validated: seq<ValidatedCase>, seenCoordinates: set<Coordinate>)
    returns (error: Option<EvidenceError>)
    requires seenCoordinates == SeenIn(validated).coordinates
    ensures error == ArmsError(validated, |REPLICA_COUNTS|)
  {
    var armNamespaces := {};
    for k := 0 to |REPLICA_COUNTS|
      invariant armNamespaces == ArmNamespaces(validated, k)
      invariant ArmsError(validated, k).None?
    {
      var replicas := REPLICA_COUNTS[k];
      ghost var expected := ArmError(validated, k);
      assert ArmsError(validated, k + 1) == expected;
      if expected.Some? {
        ArmErrorStays(validated, k + 1, |REPLICA_COUNTS|);
      }
      var namespaces := Namespaces(validated, replicas);
      if |namespaces| != 1 {
        return Some(NamespaceNotShared(replicas));
      }
      var namespace := namespaces[0];
      if namespace == "" {
        return Some(NamespaceMissing(replicas));
      }
      if namespace in armNamespaces {
        return Some(NamespaceReused(namespace));
      }
      assert Elements(namespaces) == {namespace};
      armNamespaces := armNamespaces + {namespace};
      var missing := CheckScenarios(seenCoordinates, replicas);
      if missing.Some? {
        return missing;
      }
    }
    error := None;
  }

  method SummarizeAdspP2W3Evidence(parse: OriginParser, inputs: seq<CaseEvidence>)
    returns (r: Result<seq<ValidatedCase>, EvidenceError>)
    ensures r == Summarize(parse, inputs)
  {
    if |inputs| != |REPLICA_COUNTS| * |SCENARIOS| {
      return Err(NotNineCases);
    }
    var mapped := Traverse(Validator(parse), inputs);
    if mapped.Err? {
      return Err(mapped.error);
    }
    var clash, seenCoordinates := CheckIdentities(mapped.value);
    if clash.Some? {
      return Err(clash.value);
    }
    var mismatch := CheckArms(mapped.value, seenCoordinates);
    if mismatch.Some? {
      return Err(mismatch.value);
    }
    r := Ok(Sort(CaseLeq, mapped.value));
  }

  // ----- what is accepted -----

  ghost predicate DistinctIdentities(items: seq<ValidatedCase>) {
    && NoDuplicates(Map(CoordinateOf, items))
    && NoDuplicates(Map(ActivityIdOf, items))
    && NoDuplicates(Map(RequestIdOf, items))
    && NoDuplicates(Map(IntentIdOf, items))
    && NoDuplicates(Map(JobIdOf, items))
  }

  /** Cases share a namespace exactly when they are of the same arm. */
  ghost predicate MatchedArms(items: seq<ValidatedCase>) {
    forall v, w :: v in items && w in items ==>
      (v.replicas == w.replicas <==> v.moleculerNamespace == w.moleculerNamespace)
  }

  ghost predicate Usable(items: seq<ValidatedCase>) {
    |items| == 9 && forall v :: v in items ==> v.replicas in REPLICA_COUNTS && v.moleculerNamespace != ""
  }

  lemma MapOfAppended<A, B>(f: A -> B, s: seq<A>)
    requires s != []
    ensures Map(f, s) == Map(f, s[..|s| - 1]) + [f(s[|s| - 1])]
    ensures Elements(Map(f, s)) == Elements(Map(f, s[..|s| - 1])) + {f(s[|s| - 1])}
    ensures NoDuplicates(Map(f, s)) <==>
              NoDuplicates(Map(f, s[..|s| - 1])) && f(s[|s| - 1]) !in Elements(Map(f, s[..|s| - 1]))
  {
    var front, last := Map(f, s[..|s| - 1]), f(s[|s| - 1]);
    assert Map(f, s) == front + [last];
    AppendedDuplicates(front, last);
  }

  lemma AppendedDuplicates<T>(s: seq<T>, x: T)
    ensures NoDuplicates(s + [x]) <==> NoDuplicates(s) && x !in s
  {
    if NoDuplicates(s + [x]) {
      assert forall i :: 0 <= i < |s| ==> s[i] == (s + [x])[i];
      assert (s + [x])[|s|] == x;
    }
  }

  lemma {:induction false} SeenAre(items: seq<ValidatedCase>)
    ensures SeenIn(items) == Seen(
              Elements(Map(CoordinateOf, items)), Elements(Map(ActivityIdOf, items)), Elements(Map(RequestIdOf, items)),
              Elements(Map(IntentIdOf, items)), Elements(Map(JobIdOf, items)))
  {
    if items != [] {
      SeenAre(items[..|items| - 1]);
      MapOfAppended(CoordinateOf, items);
      MapOfAppended(ActivityIdOf, items);
      MapOfAppended(RequestIdOf, items);
      MapOfAppended(IntentIdOf, items);
      MapOfAppended(JobIdOf, items);
    }
  }

  /** The identity loop finds nothing exactly when all five kinds of identity are pairwise distinct. */
  lemma {:induction false} NoClashIff(items: seq<ValidatedCase>)
    ensures FirstClash(items).None? <==> DistinctIdentities(items)
  {
    if items != [] {
      NoClashIff(items[..|items| - 1]);
      SeenAre(items[..|items| - 1]);
      MapOfAppended(CoordinateOf, items);
      MapOfAppended(ActivityIdOf, items);
      MapOfAppended(RequestIdOf, items);
      MapOfAppended(IntentIdOf, items);
      MapOfAppended(JobIdOf, items);
    }
  }

  const ALL_COORDINATES: set<Coordinate> :=
    {Coordinate(1, Success), Coordinate(1, Transient), Coordinate(1, Permanent),
     Coordinate(2, Success), Coordinate(2, Transient), Coordinate(2, Permanent),
     Coordinate(4, Success), Coordinate(4, Transient), Coordinate(4, Permanent)}

  lemma NineCoordinates()
    ensures |ALL_COORDINATES| == 9
  {
    var listed := [
      Coordinate(1, Success), Coordinate(1, Transient), Coordinate(1, Permanent),
      Coordinate(2, Success), Coordinate(2, Transient), Coordinate(2, Permanent),
      Coordinate(4, Success), Coordinate(4, Transient), Coordinate(4, Permanent)];
    assert Elements(listed) == ALL_COORDINATES;
    DistinctCount(listed);
  }

  lemma InGrid(v: ValidatedCase)
    requires v.replicas in REPLICA_COUNTS
    ensures CoordinateOf(v) in ALL_COORDINATES
  {
    assert v.scenario.Success? || v.scenario.Transient? || v.scenario.Permanent?;
  }

  /** Nine cases with distinct coordinates fill the whole grid. */
  lemma GridIsFull(items: seq<ValidatedCase>)
    requires Usable(items) && NoDuplicates(Map(CoordinateOf, items))
    ensures SeenIn(items).coordinates == ALL_COORDINATES
  {
    SeenAre(items);
    var coordinates := Map(CoordinateOf, items);
    DistinctCount(coordinates);
    NineCoordinates();
    forall i | 0 <= i < |items| ensures coordinates[i] in ALL_COORDINATES {
      assert items[i] in items;
      InGrid(items[i]);
    }
    SubsetCount(Elements(coordinates), ALL_COORDINATES);
  }

  lemma {:induction false} CoordinateHasCase(items: seq<ValidatedCase>, c: Coordinate) returns (v: ValidatedCase)
    requires c in SeenIn(items).coordinates
    ensures v in items && CoordinateOf(v) == c
  {
    v := items[|items| - 1];
    if CoordinateOf(v) != c {
      v := CoordinateHasCase(items[..|items| - 1], c);
    }
  }

  lemma {:induction false} NamespacesHold(items: seq<ValidatedCase>, v: ValidatedCase)
    requires v in items
    ensures v.moleculerNamespace in Namespaces(items, v.replicas)
  {
    var n := |items| - 1;
    if v != items[n] {
      assert v in items[..n];
      NamespacesHold(items[..n], v);
    }
  }

  lemma {:induction false} NamespaceHasCase(items: seq<ValidatedCase>, replicas: nat, namespace: string)
      returns (v: ValidatedCase)
    requires namespace in Namespaces(items, replicas)
    ensures v in items && v.replicas == replicas && v.moleculerNamespace == namespace
  {
    v := items[|items| - 1];
    if v.replicas != replicas || v.moleculerNamespace != namespace {
      v := NamespaceHasCase(items[..|items| - 1], replicas, namespace);
    }
  }

  lemma {:induction false} NamespacesAreDistinct(items: seq<ValidatedCase>, replicas: nat)
    ensures NoDuplicates(Namespaces(items, replicas))
  {
    if items != [] {
      NamespacesAreDistinct(items[..|items| - 1], replicas);
    }
  }

  lemma {:induction false} EarlierArm(items: seq<ValidatedCase>, k: nat, j: nat)
    requires j < k <= |REPLICA_COUNTS|
    ensures forall namespace :: namespace in Namespaces(items, REPLICA_COUNTS[j]) ==>
              namespace in ArmNamespaces(items, k)
  {
    if j < k - 1 {
      EarlierArm(items, k - 1, j);
    }
  }

  lemma {:induction false} ArmOfNamespace(items: seq<ValidatedCase>, k: nat, namespace: string) returns (j: nat)
    requires k <= |REPLICA_COUNTS| && namespace in ArmNamespaces(items, k)
    ensures j < k && namespace in Namespaces(items, REPLICA_COUNTS[j])
  {
    j := k - 1;
    if namespace !in Namespaces(items, REPLICA_COUNTS[j]) {
      j := ArmOfNamespace(items, k - 1, namespace);
    }
  }

  lemma {:induction false} ArmsErrorIff(items: seq<ValidatedCase>, k: nat)
    requires k <= |REPLICA_COUNTS|
    ensures ArmsError(items, k).None? <==> forall j: nat :: j < k ==> ArmError(items, j).None?
  {
    if k > 0 {
      ArmsErrorIff(items, k - 1);
    }
  }

  lemma {:induction false} NoneMissing(replicas: nat, j: nat)
    requires replicas in REPLICA_COUNTS && j <= |SCENARIOS|
    ensures FirstMissing(ALL_COORDINATES, replicas, j).None?
  {
    if j > 0 {
      NoneMissing(replicas, j - 1);
    }
  }

  lemma ArmOf(replicas: nat) returns (k: nat)
    requires replicas in REPLICA_COUNTS
    ensures k < |REPLICA_COUNTS| && REPLICA_COUNTS[k] == replicas
  {
    k :| 0 <= k < |REPLICA_COUNTS| && REPLICA_COUNTS[k] == replicas;
  }

  lemma SoleNamespace(items: seq<ValidatedCase>, v: ValidatedCase, k: nat)
    requires v in items && k < |REPLICA_COUNTS| && v.replicas == REPLICA_COUNTS[k] && ArmError(items, k).None?
    ensures Namespaces(items, REPLICA_COUNTS[k]) == [v.moleculerNamespace]
    ensures v.moleculerNamespace !in ArmNamespaces(items, k)
  {
    NamespacesHold(items, v);
  }

  lemma AcceptedArmsMatch(items: seq<ValidatedCase>)
    requires Usable(items) && ArmsError(items, |REPLICA_COUNTS|).None?
    ensures MatchedArms(items)
  {
    ArmsErrorIff(items, |REPLICA_COUNTS|);
    forall v, w | v in items && w in items
      ensures v.replicas == w.replicas <==> v.moleculerNamespace == w.moleculerNamespace
    {
      var i := ArmOf(v.replicas);
      var j := ArmOf(w.replicas);
      SoleNamespace(items, v, i);
      SoleNamespace(items, w, j);
      if i < j {
        EarlierArm(items, j, i);
      } else if j < i {
        EarlierArm(items, i, j);
      }
    }
  }

  lemma MatchedArmIsShared(items: seq<ValidatedCase>, v: ValidatedCase)
    requires MatchedArms(items) && v in items
    ensures Namespaces(items, v.replicas) == [v.moleculerNamespace]
  {
    var namespaces := Namespaces(items, v.replicas);
    NamespacesHold(items, v);
    NamespacesAreDistinct(items, v.replicas);
    forall i | 0 <= i < |namespaces| ensures namespaces[i] == v.moleculerNamespace {
      var w := NamespaceHasCase(items, v.replicas, namespaces[i]);
    }
    Singleton(namespaces, v.moleculerNamespace);
  }

  lemma MatchedArmIsFresh(items: seq<ValidatedCase>, v: ValidatedCase, k: nat)
    requires MatchedArms(items) && v in items && k < |REPLICA_COUNTS| && v.replicas == REPLICA_COUNTS[k]
    ensures v.moleculerNamespace !in ArmNamespaces(items, k)
  {
    if v.moleculerNamespace in ArmNamespaces(items, k) {
      var j := ArmOfNamespace(items, k, v.moleculerNamespace);
      var w := NamespaceHasCase(items, REPLICA_COUNTS[j], v.moleculerNamespace);
      assert false;
    }
  }

  lemma MatchedArmsAreAccepted(items: seq<ValidatedCase>)
    requires Usable(items) && MatchedArms(items) && SeenIn(items).coordinates == ALL_COORDINATES
    ensures ArmsError(items, |REPLICA_COUNTS|).None?
  {
    forall k: nat | k < |REPLICA_COUNTS| ensures ArmError(items, k).None? {
      var v := CoordinateHasCase(items, Coordinate(REPLICA_COUNTS[k], Success));
      MatchedArmIsShared(items, v);
      MatchedArmIsFresh(items, v, k);
      NoneMissing(REPLICA_COUNTS[k], |SCENARIOS|);
    }
    ArmsErrorIff(items, |REPLICA_COUNTS|);
  }

  /** Nine validated cases make a summary exactly when identities are distinct and each arm has its own namespace. */
  lemma SummaryIff(items: seq<ValidatedCase>)
    requires Usable(items)
    ensures SummaryOf(items).Ok? <==> DistinctIdentities(items) && MatchedArms(items)
  {
    NoClashIff(items);
    if DistinctIdentities(items) {
      GridIsFull(items);
      if MatchedArms(items) {
        MatchedArmsAreAccepted(items);
      }
    }
    if SummaryOf(items).Ok? {
      AcceptedArmsMatch(items);
    }
  }

  // ----- the canonical order -----

  lemma CaseLeqIsPreorder()
    ensures TotalPreorder(CaseLeq)
  {
  }

  /** Where a case belongs in the summary. */
  function Rank(v: ValidatedCase): nat {
    (if v.replicas == 1 then 0 else if v.replicas == 2 then 3 else 6) + ScenarioIndex(v.scenario)
  }

  lemma RankOrders(v: ValidatedCase, w: ValidatedCase)
    requires v.replicas in REPLICA_COUNTS && w.replicas in REPLICA_COUNTS
    ensures CaseLeq(v, w) <==> Rank(v) <= Rank(w)
    ensures Rank(v) == Rank(w) ==> CoordinateOf(v) == CoordinateOf(w)
    ensures Rank(v) < 9
  {
  }

  lemma {:induction false} RanksClimb(ranks: seq<nat>, k: nat)
    requires k < |ranks| && forall i, j :: 0 <= i < j < |ranks| ==> ranks[i] < ranks[j]
    ensures ranks[k] >= k
  {
    if k > 0 {
      RanksClimb(ranks, k - 1);
    }
  }

  lemma {:induction false} RanksFill(ranks: seq<nat>, k: nat, bound: nat)
    requires k < |ranks| == bound && forall i, j :: 0 <= i < j < |ranks| ==> ranks[i] < ranks[j]
    requires forall i :: 0 <= i < |ranks| ==> ranks[i] < bound
    ensures ranks[k] == k
    decreases bound - k
  {
    RanksClimb(ranks, k);
    if k + 1 < bound {
      RanksFill(ranks, k + 1, bound);
    }
  }

  lemma SameCoordinateSameCase(items: seq<ValidatedCase>, v: ValidatedCase, w: ValidatedCase)
    requires NoDuplicates(Map(CoordinateOf, items)) && v in items && w in items && CoordinateOf(v) == CoordinateOf(w)
    ensures v == w
  {
    var i :| 0 <= i < |items| && items[i] == v;
    var j :| 0 <= j < |items| && items[j] == w;
    assert Map(CoordinateOf, items)[i] == Map(CoordinateOf, items)[j];
  }

  lemma CoordinatesDistinct(items: seq<ValidatedCase>)
    requires NoDuplicates(Map(CoordinateOf, items))
    ensures NoDuplicates(items)
  {
    forall i, j | 0 <= i < j < |items| ensures items[i] != items[j] {
      assert Map(CoordinateOf, items)[i] != Map(CoordinateOf, items)[j];
    }
  }

  lemma RanksAscend(items: seq<ValidatedCase>, sorted: seq<ValidatedCase>, i: nat, j: nat)
    requires Usable(items) && NoDuplicates(Map(CoordinateOf, items)) && sorted == Sort(CaseLeq, items)
    requires i < j < |sorted|
    ensures Rank(sorted[i]) < Rank(sorted[j])
  {
    CaseLeqIsPreorder();
    SortSorts(CaseLeq, items);
    CoordinatesDistinct(items);
    SortKeepsNoDuplicates(CaseLeq, items);
    assert sorted[i] in items && sorted[j] in items;
    RankOrders(sorted[i], sorted[j]);
    if Rank(sorted[i]) == Rank(sorted[j]) {
      SameCoordinateSameCase(items, sorted[i], sorted[j]);
    }
  }

  ghost predicate Canonical(cases: seq<ValidatedCase>) {
    |cases| == 9
    && forall k :: 0 <= k < 9 ==>
         cases[k].replicas == REPLICA_COUNTS[k / 3] && cases[k].scenario == SCENARIOS[k % 3]
  }

  lemma RankIsPosition(v: ValidatedCase)
    requires v.replicas in REPLICA_COUNTS
    ensures v.replicas == REPLICA_COUNTS[Rank(v) / 3] && v.scenario == SCENARIOS[Rank(v) % 3]
  {
  }

  /** Sorting the nine distinct cases lists the grid: every replica count in turn, every scenario in turn. */
  lemma SortedIsCanonical(items: seq<ValidatedCase>)
    requires Usable(items) && NoDuplicates(Map(CoordinateOf, items))
    ensures Canonical(Sort(CaseLeq, items))
    ensures multiset(Sort(CaseLeq, items)) == multiset(items)
  {
    var sorted := Sort(CaseLeq, items);
    CaseLeqIsPreorder();
    SortSorts(CaseLeq, items);
    var ranks := Map(Rank, sorted);
    forall i | 0 <= i < |ranks| ensures ranks[i] < 9 {
      assert sorted[i] in items;
      RankOrders(sorted[i], sorted[i]);
    }
    forall i, j | 0 <= i < j < |ranks| ensures ranks[i] < ranks[j] {
      RanksAscend(items, sorted, i, j);
    }
    forall k | 0 <= k < 9
      ensures sorted[k].replicas == REPLICA_COUNTS[k / 3] && sorted[k].scenario == SCENARIOS[k % 3]
    {
      RanksFill(ranks, k, 9);
      assert sorted[k] in items;
      RankIsPosition(sorted[k]);
    }
  }

  // ----- theorems about the whole summary -----

  lemma ValidatedAreUsable(parse: OriginParser, inputs: seq<CaseEvidence>)
    requires |inputs| == 9 && Traverse(Validator(parse), inputs).Ok?
    ensures Usable(Traverse(Validator(parse), inputs).value)
  {
    hide ValidateCase;
    var validated := Traverse(Validator(parse), inputs).value;
    TraverseIs(Validator(parse), inputs, validated);
    forall i | 0 <= i < 9 ensures validated[i].replicas in REPLICA_COUNTS && validated[i].moleculerNamespace != "" {
      ValidateIff(parse, inputs[i], ValidateCase(parse, inputs[i]).value);
    }
  }

  /** The inputs a summary is made of. */
  ghost predicate Acceptable(parse: OriginParser, inputs: seq<CaseEvidence>) {
    && |inputs| == 9
    && var validated := Traverse(Validator(parse), inputs);
       validated.Ok? && DistinctIdentities(validated.value) && MatchedArms(validated.value)
  }

  /**
   A summary is made exactly of nine valid cases with pairwise distinct identities and one namespace per arm;
   it then lists the validated cases, one for each point of the grid, in canonical order.
   */
  lemma SummaryIsComplete(parse: OriginParser, inputs: seq<CaseEvidence>)
    ensures Summarize(parse, inputs).Ok? <==> Acceptable(parse, inputs)
    ensures Summarize(parse, inputs).Ok? ==>
              Canonical(Summarize(parse, inputs).value)
              && multiset(Summarize(parse, inputs).value) == multiset(Traverse(Validator(parse), inputs).value)
  {
    hide ValidateCase, SummaryOf, DistinctIdentities, MatchedArms, Canonical;
    if |inputs| == 9 && Traverse(Validator(parse), inputs).Ok? {
      var validated := Traverse(Validator(parse), inputs).value;
      ValidatedAreUsable(parse, inputs);
      SummaryIff(validated);
      if SummaryOf(validated).Ok? {
        SummaryValue(validated);
      }
    }
  }

  lemma SummaryValue(items: seq<ValidatedCase>)
    requires Usable(items) && SummaryOf(items).Ok?
    ensures SummaryOf(items).value == Sort(CaseLeq, items)
    ensures Canonical(SummaryOf(items).value) && multiset(SummaryOf(items).value) == multiset(items)
  {
    NoClashIff(items);
    SortedIsCanonical(items);
  }

  lemma DistinctUnderPermutation<K>(key: ValidatedCase -> K, a: seq<ValidatedCase>, b: seq<ValidatedCase>)
    requires multiset(a) == multiset(b)
    ensures NoDuplicates(Map(key, a)) <==> NoDuplicates(Map(key, b))
  {
    MapPermutes(key, a, b);
    NoDuplicatesAsMultiset(Map(key, a));
    NoDuplicatesAsMultiset(Map(key, b));
  }

  lemma ConditionsUnderPermutation(a: seq<ValidatedCase>, b: seq<ValidatedCase>)
    requires multiset(a) == multiset(b)
    ensures DistinctIdentities(a) <==> DistinctIdentities(b)
    ensures MatchedArms(a) <==> MatchedArms(b)
  {
    DistinctUnderPermutation(CoordinateOf, a, b);
    DistinctUnderPermutation(ActivityIdOf, a, b);
    DistinctUnderPermutation(RequestIdOf, a, b);
    DistinctUnderPermutation(IntentIdOf, a, b);
    DistinctUnderPermutation(JobIdOf, a, b);
    assert forall v :: v in a <==> v in multiset(a);
    assert forall v :: v in b <==> v in multiset(b);
  }

  lemma SortUnderPermutation(a: seq<ValidatedCase>, b: seq<ValidatedCase>)
    requires multiset(a) == multiset(b) && NoDuplicates(Map(CoordinateOf, a)) && Usable(a)
    ensures Sort(CaseLeq, a) == Sort(CaseLeq, b)
  {
    CaseLeqIsPreorder();
    forall v, w | v in a && w in a && CaseLeq(v, w) && CaseLeq(w, v) ensures v == w {
      RankOrders(v, w);
      RankOrders(w, v);
      SameCoordinateSameCase(a, v, w);
    }
    SortOfPermutation(CaseLeq, a, b);
  }

  lemma AcceptedPermutation(parse: OriginParser, a: seq<CaseEvidence>, b: seq<CaseEvidence>)
    requires multiset(a) == multiset(b) && Summarize(parse, a).Ok?
    ensures Summarize(parse, b) == Summarize(parse, a)
  {
    hide ValidateCase, SummaryOf, DistinctIdentities, MatchedArms, Canonical;
    assert |a| == |multiset(a)| == |multiset(b)| == |b|;
    TraversePermutes(Validator(parse), a, b);
    var va, vb := Traverse(Validator(parse), a).value, Traverse(Validator(parse), b).value;
    ValidatedAreUsable(parse, a);
    ValidatedAreUsable(parse, b);
    SummaryUnderPermutation(va, vb);
  }

  lemma SummaryUnderPermutation(va: seq<ValidatedCase>, vb: seq<ValidatedCase>)
    requires Usable(va) && Usable(vb) && multiset(va) == multiset(vb) && SummaryOf(va).Ok?
    ensures SummaryOf(vb) == SummaryOf(va)
  {
    ConditionsUnderPermutation(va, vb);
    SummaryIff(va);
    SummaryIff(vb);
    SummaryValue(va);
    SummaryValue(vb);
    SortUnderPermutation(va, vb);
  }

  /** The order of the inputs changes neither acceptance nor the summary. */
  lemma InputOrderDoesNotMatter(parse: OriginParser, a: seq<CaseEvidence>, b: seq<CaseEvidence>)
    requires multiset(a) == multiset(b)
    ensures Summarize(parse, a).Ok? <==> Summarize(parse, b).Ok?
    ensures Summarize(parse, a).Ok? ==> Summarize(parse, a) == Summarize(parse, b)
  {
    if Summarize(parse, a).Ok? {
      AcceptedPermutation(parse, a, b);
    } else if Summarize(parse, b).Ok? {
      AcceptedPermutation(parse, b, a);
    }
  }

  // ----- checks that never fire -----

  predicate Unreachable(e: EvidenceError) {
    e.MissingCoordinate? || e.NamespaceMissing?
  }

  lemma CorrelationErrors(value: Json)
    ensures ParseCorrelation(value).Err? ==> ParseCorrelation(value).error.Malformed?
  {
    hide Trim, TrimEnd, TrimStart;
  }

  lemma SettlementErrors(value: Json)
    ensures ParseSettlement(value).Err? ==> ParseSettlement(value).error.Malformed?
  {
    hide Trim, TrimEnd, TrimStart, Field;
  }

  lemma ValidateErrors(parse: OriginParser, input: CaseEvidence)
    ensures ValidateCase(parse, input).Err? ==> !Unreachable(ValidateCase(parse, input).error)
  {
    hide ParseCorrelation, ParseSettlement;
    CorrelationErrors(input.correlation);
    SettlementErrors(input.settlement);
  }

  lemma {:induction false} ClashErrors(items: seq<ValidatedCase>)
    ensures FirstClash(items).Some? ==> !Unreachable(FirstClash(items).value)
  {
    if items != [] {
      ClashErrors(items[..|items| - 1]);
    }
  }

  lemma {:induction false} ArmErrors(items: seq<ValidatedCase>, k: nat)
    requires Usable(items) && SeenIn(items).coordinates == ALL_COORDINATES && k <= |REPLICA_COUNTS|
    ensures ArmsError(items, k).Some? ==> !Unreachable(ArmsError(items, k).value)
  {
    if k > 0 {
      ArmErrors(items, k - 1);
      var replicas := REPLICA_COUNTS[k - 1];
      NoneMissing(replicas, |SCENARIOS|);
      if "" in Namespaces(items, replicas) {
        var v := NamespaceHasCase(items, replicas, "");
        assert false;
      }
    }
  }

  lemma SummaryErrors(items: seq<ValidatedCase>)
    requires Usable(items)
    ensures SummaryOf(items).Err? ==> !Unreachable(SummaryOf(items).error)
  {
    ClashErrors(items);
    NoClashIff(items);
    if DistinctIdentities(items) {
      GridIsFull(items);
      ArmErrors(items, |REPLICA_COUNTS|);
    }
  }

  /** By pigeonhole the missing-coordinate check never fires, nor does the missing-namespace check. */
  lemma NothingIsEverMissing(parse: OriginParser, inputs: seq<CaseEvidence>)
    ensures Summarize(parse, inputs).Err? ==> !Unreachable(Summarize(parse, inputs).error)
  {
    hide ValidateCase, SummaryOf;
    if |inputs| == 9 {
      if Traverse(Validator(parse), inputs).Err? {
        var i := TraverseFails(Validator(parse), inputs);
        ValidateErrors(parse, inputs[i]);
      } else {
        ValidatedAreUsable(parse, inputs);
        SummaryErrors(Traverse(Validator(parse), inputs).value);
      }
    }
  }

  // ----- agreement with the controlled target -----

  /**
   The request count an accepted case must report is the number of requests a client sends to a target configured
   with the same two transient failures before its first answer other than 503.
   */
  lemma CountAgreesWithTarget(
      parse: OriginParser, input: CaseEvidence, cfg: Config, hash: string, before: seq<Event>, events: seq<Event>)
    requires ValidateCase(parse, input).Ok?
    requires cfg.transientFailuresBeforeSuccess == TRANSIENT_FAILURES_BEFORE_SUCCESS && cfg.maxObservations >= 1
    requires Sends(hash, ValidateCase(parse, input).value.scenario, events) && CountHash(Log(before), hash) == 0
    ensures StoppedAtFirstNon503(Statuses(cfg, hash, before, events))
       <==> |Statuses(cfg, hash, before, events)| == ValidateCase(parse, input).value.observedRequests
  {
    hide ValidateCase;
    ValidateIff(parse, input, ValidateCase(parse, input).value);
    RetryComposition(cfg, hash, ValidateCase(parse, input).value.scenario, before, events);
  }
}

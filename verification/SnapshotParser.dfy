/**
 The strict parser of controlled-target snapshots
 (fedify-sidecar/src/adsp/ControlledTargetSnapshotClient.ts).
 */
module SnapshotParser {
  import opened Prelude
  import opened JsonTree
  import opened TargetLedger

  datatype Snapshot = Snapshot(
    transientFailuresBeforeSuccess: nat, maxObservations: nat, totalRequests: nat, droppedObservations: nat,
    counts: Counts, observations: seq<Observation>)

  function SnapshotOf(cfg: Config, l: Ledger): Snapshot {
    Snapshot(cfg.transientFailuresBeforeSuccess, cfg.maxObservations, l.totalRequests, l.droppedObservations,
             l.counts, l.observations)
  }

  // ----- the JSON text's tree -----

  function Num(n: int): Json {
    JNumber(n as real)
  }

  function OptionalString(s: Option<string>): Json {
    if s.Some? then JString(s.value) else JNull
  }

  function ObservationJson(o: Observation): Json {
    JObject(map[
      "sequence" := Num(o.sequence),
      "scenario" := JString(ScenarioName(o.scenario)),
      "scenarioAttempt" := Num(o.scenarioAttempt),
      "payloadAttempt" := Num(o.payloadAttempt),
      "method" := JString(o.httpMethod),
      "path" := JString(o.path),
      "bodyBytes" := Num(o.bodyBytes),
      "bodySha256" := JString(o.bodySha256),
      "activityId" := OptionalString(o.activityId),
      "contentType" := OptionalString(o.contentType),
      "host" := OptionalString(o.host),
      "hasDate" := JBool(o.hasDate),
      "hasDigest" := JBool(o.hasDigest),
      "hasValidDigest" := JBool(o.hasValidDigest),
      "hasSignature" := JBool(o.hasSignature),
      "receivedAtMs" := Num(o.receivedAtMs)])
  }

  datatype ParseError =
    | NotAnObject
    | BadVersion
    | BadCounts
    | BadObservations
    | BadField(name: string)
    | CountMismatch
    | NotReconciled

  function StringFrom(name: string, value: Option<Json>): Result<string, ParseError> {
    match value
    case Some(JString(s)) => Ok(s)
    case _ => Err(BadField(name))
  }

  function BoolFrom(name: string, value: Option<Json>): Result<bool, ParseError> {
    match value
    case Some(JBool(b)) => Ok(b)
    case _ => Err(BadField(name))
  }

  /** string | null; an absent field is undefined, hence neither. */
  function NullableStringFrom(name: string, value: Option<Json>): Result<Option<string>, ParseError> {
    match value
    case Some(JNull) => Ok(None)
    case Some(JString(s)) => Ok(Some(s))
    case _ => Err(BadField(name))
  }

  predicate ExactOrNone(id: Option<string>) {
    id.Some? ==> id.value != "" && id.value == Trim(id.value)
  }

  /** The fields an observation is read from, undefined where absent. */
  datatype RawObservation = RawObservation(
    sequence: Option<Json>, scenario: Option<Json>, scenarioAttempt: Option<Json>, payloadAttempt: Option<Json>,
    httpMethod: Option<Json>, path: Option<Json>, bodyBytes: Option<Json>, bodySha256: Option<Json>,
    activityId: Option<Json>, contentType: Option<Json>, host: Option<Json>,
    hasDate: Option<Json>, hasDigest: Option<Json>, hasValidDigest: Option<Json>, hasSignature: Option<Json>,
    receivedAtMs: Option<Json>)

  function Raw(item: Json): RawObservation {
    RawObservation(
      Field(item, "sequence"), Field(item, "scenario"), Field(item, "scenarioAttempt"), Field(item, "payloadAttempt"),
      Field(item, "method"), Field(item, "path"), Field(item, "bodyBytes"), Field(item, "bodySha256"),
      Field(item, "activityId"), Field(item, "contentType"), Field(item, "host"),
      Field(item, "hasDate"), Field(item, "hasDigest"), Field(item, "hasValidDigest"), Field(item, "hasSignature"),
      Field(item, "receivedAtMs"))
  }

  function ParseObservation(item: Json): Result<Observation, ParseError> {
    if item.JObject? then ParseRaw(Raw(item)) else Err(NotAnObject)
  }

  function ParseRaw(raw: RawObservation): Result<Observation, ParseError> {
    var scenario :- ScenarioFrom(raw.scenario, BadField("scenario"));
    var activityId :- NullableStringFrom("activityId", raw.activityId);
    if !ExactOrNone(activityId) then Err(BadField("activityId"))
    else
      var contentType :- NullableStringFrom("contentType", raw.contentType);
      var host :- NullableStringFrom("host", raw.host);
      var sequence :- SafeIntegerFrom(raw.sequence, 0, BadField("sequence"));
      var scenarioAttempt :- SafeIntegerFrom(raw.scenarioAttempt, 0, BadField("scenarioAttempt"));
      var payloadAttempt :- SafeIntegerFrom(raw.payloadAttempt, 0, BadField("payloadAttempt"));
      var httpMethod :- StringFrom("method", raw.httpMethod);
      var path :- StringFrom("path", raw.path);
      var bodyBytes :- SafeIntegerFrom(raw.bodyBytes, 0, BadField("bodyBytes"));
      var bodySha256 :- StringFrom("bodySha256", raw.bodySha256);
      var hasDate :- BoolFrom("hasDate", raw.hasDate);
      var hasDigest :- BoolFrom("hasDigest", raw.hasDigest);
      var hasValidDigest :- BoolFrom("hasValidDigest", raw.hasValidDigest);
      var hasSignature :- BoolFrom("hasSignature", raw.hasSignature);
      var receivedAtMs :- SafeIntegerFrom(raw.receivedAtMs, 0, BadField("receivedAtMs"));
      Ok(Observation(
        sequence, scenario, scenarioAttempt, payloadAttempt, httpMethod, path, bodyBytes, bodySha256,
        activityId, contentType, host, hasDate, hasDigest, hasValidDigest, hasSignature, receivedAtMs))
  }

  function ParseObservations(items: seq<Json>): Result<seq<Observation>, ParseError> {
    Traverse(ParseObservation, items)
  }

  function CountsJson(c: Counts): Json {
    JObject(map["success" := Num(c.success), "transient" := Num(c.transient), "permanent" := Num(c.permanent)])
  }

  function ObservationsJson(os: seq<Observation>): (items: seq<Json>)
    ensures |items| == |os| && forall i :: 0 <= i < |os| ==> items[i] == ObservationJson(os[i])
  {
    seq(|os|, i requires 0 <= i < |os| => ObservationJson(os[i]))
  }

  function ToJson(s: Snapshot): Json {
    JObject(map[
      "version" := Num(1),
      "transientFailuresBeforeSuccess" := Num(s.transientFailuresBeforeSuccess),
      "maxObservations" := Num(s.maxObservations),
      "totalRequests" := Num(s.totalRequests),
      "droppedObservations" := Num(s.droppedObservations),
      "counts" := CountsJson(s.counts),
      "observations" := JArray(ObservationsJson(s.observations))])
  }

  function ParseCounts(counts: Json): Result<Counts, ParseError> {
    var success :- SafeIntegerFrom(Field(counts, "success"), 0, BadField("counts.success"));
    var transient :- SafeIntegerFrom(Field(counts, "transient"), 0, BadField("counts.transient"));
    var permanent :- SafeIntegerFrom(Field(counts, "permanent"), 0, BadField("counts.permanent"));
    Ok(Counts(success, transient, permanent))
  }

  /** The last two checks of the parser: totals must reconcile. */
  function Reconcile(s: Snapshot): Result<Snapshot, ParseError> {
    if s.counts.success + s.counts.transient + s.counts.permanent != s.totalRequests then Err(CountMismatch)
    else if |s.observations| + s.droppedObservations != s.totalRequests then Err(NotReconciled)
    else Ok(s)
  }

  function ParseControlledTargetSnapshot(value: Json): Result<Snapshot, ParseError> {
    if !value.JObject? then Err(NotAnObject)
    else if Field(value, "version") != Some(JNumber(1.0)) then Err(BadVersion)
    else
      match (Field(value, "counts"), Field(value, "observations"))
      case (Some(JObject(fields)), Some(JArray(items))) =>
        ParseParts(
          Field(value, "transientFailuresBeforeSuccess"), Field(value, "maxObservations"),
          Field(value, "totalRequests"), Field(value, "droppedObservations"), JObject(fields), items)
      case (Some(JObject(_)), _) => Err(BadObservations)
      case _ => Err(BadCounts)
  }

  function ParseParts(
      failures: Option<Json>, maximum: Option<Json>, total: Option<Json>, dropped: Option<Json>,
      counts: Json, items: seq<Json>)
    : Result<Snapshot, ParseError>
  {
    var transientFailuresBeforeSuccess :- SafeIntegerFrom(failures, 0, BadField("transientFailuresBeforeSuccess"));
    var maxObservations :- SafeIntegerFrom(maximum, 1, BadField("maxObservations"));
    var totalRequests :- SafeIntegerFrom(total, 0, BadField("totalRequests"));
    var droppedObservations :- SafeIntegerFrom(dropped, 0, BadField("droppedObservations"));
    var parsedCounts :- ParseCounts(counts);
    var observations :- ParseObservations(items);
    Reconcile(Snapshot(
      transientFailuresBeforeSuccess, maxObservations, totalRequests, droppedObservations, parsedCounts, observations))
  }

  // ----- what the parser accepts -----

  ghost predicate ObservationInRange(o: Observation) {
    && SafeInteger(o.sequence) && SafeInteger(o.scenarioAttempt) && SafeInteger(o.payloadAttempt)
    && SafeInteger(o.bodyBytes) && 0 <= o.receivedAtMs && SafeInteger(o.receivedAtMs)
    && (o.activityId.Some? ==> ExactText(o.activityId.value))
  }

  lemma ExactOrNoneIff()
    ensures forall id :: ExactOrNone(id) <==> (id.Some? ==> ExactText(id.value))
  {
    forall id ensures ExactOrNone(id) <==> (id.Some? ==> ExactText(id.value)) {
      if id.Some? {
        ExactIff(id.value);
      }
    }
  }

  ghost predicate CountsInRange(c: Counts) {
    SafeInteger(c.success) && SafeInteger(c.transient) && SafeInteger(c.permanent)
  }

  ghost predicate InRange(s: Snapshot) {
    && SafeInteger(s.transientFailuresBeforeSuccess)
    && s.maxObservations >= 1 && SafeInteger(s.maxObservations)
    && SafeInteger(s.totalRequests) && SafeInteger(s.droppedObservations)
    && CountsInRange(s.counts)
    && (forall o :: o in s.observations ==> ObservationInRange(o))
    && s.counts.success + s.counts.transient + s.counts.permanent == s.totalRequests
    && |s.observations| + s.droppedObservations == s.totalRequests
  }

  lemma NumReads(name: string, n: int, least: nat)
    ensures SafeIntegerFrom(Some(Num(n)), least, BadField(name))
         == if SafeInteger(n) && n >= least then Ok(n) else Err(BadField(name))
  {
  }

  function RawOf(o: Observation): RawObservation {
    RawObservation(
      Some(Num(o.sequence)), Some(JString(ScenarioName(o.scenario))), Some(Num(o.scenarioAttempt)),
      Some(Num(o.payloadAttempt)), Some(JString(o.httpMethod)), Some(JString(o.path)), Some(Num(o.bodyBytes)),
      Some(JString(o.bodySha256)), Some(OptionalString(o.activityId)), Some(OptionalString(o.contentType)),
      Some(OptionalString(o.host)), Some(JBool(o.hasDate)), Some(JBool(o.hasDigest)), Some(JBool(o.hasValidDigest)),
      Some(JBool(o.hasSignature)), Some(Num(o.receivedAtMs)))
  }

  lemma NumberFields(o: Observation)
    ensures Field(ObservationJson(o), "sequence") == Some(Num(o.sequence))
    ensures Field(ObservationJson(o), "scenarioAttempt") == Some(Num(o.scenarioAttempt))
    ensures Field(ObservationJson(o), "payloadAttempt") == Some(Num(o.payloadAttempt))
  {
  }

  lemma RequestFields(o: Observation)
    ensures Field(ObservationJson(o), "scenario") == Some(JString(ScenarioName(o.scenario)))
    ensures Field(ObservationJson(o), "method") == Some(JString(o.httpMethod))
    ensures Field(ObservationJson(o), "path") == Some(JString(o.path))
  {
  }

  lemma BodyFields(o: Observation)
    ensures Field(ObservationJson(o), "bodyBytes") == Some(Num(o.bodyBytes))
    ensures Field(ObservationJson(o), "bodySha256") == Some(JString(o.bodySha256))
  {
  }

  lemma HeaderFields(o: Observation)
    ensures Field(ObservationJson(o), "activityId") == Some(OptionalString(o.activityId))
    ensures Field(ObservationJson(o), "contentType") == Some(OptionalString(o.contentType))
    ensures Field(ObservationJson(o), "host") == Some(OptionalString(o.host))
  {
  }

  lemma DigestFields(o: Observation)
    ensures Field(ObservationJson(o), "hasDate") == Some(JBool(o.hasDate))
    ensures Field(ObservationJson(o), "hasDigest") == Some(JBool(o.hasDigest))
  {
  }

  lemma SignatureFields(o: Observation)
    ensures Field(ObservationJson(o), "hasValidDigest") == Some(JBool(o.hasValidDigest))
    ensures Field(ObservationJson(o), "hasSignature") == Some(JBool(o.hasSignature))
    ensures Field(ObservationJson(o), "receivedAtMs") == Some(Num(o.receivedAtMs))
  {
  }

  lemma TextReads(s: Scenario, name: string, text: Option<string>)
    ensures ScenarioFrom(Some(JString(ScenarioName(s))), BadField("scenario")) == Ok(s)
    ensures NullableStringFrom(name, Some(OptionalString(text))) == Ok(text)
  {
  }

  lemma RawReadsInRange(o: Observation)
    requires ObservationInRange(o)
    ensures ParseRaw(RawOf(o)) == Ok(o)
  {
    ExactOrNoneIff();
    hide ScenarioFrom, NullableStringFrom, SafeIntegerFrom, Trim, ExactOrNone, ExactText;
    TextReads(o.scenario, "activityId", o.activityId);
    TextReads(o.scenario, "contentType", o.contentType);
    TextReads(o.scenario, "host", o.host);
    NumReads("sequence", o.sequence, 0);
    NumReads("scenarioAttempt", o.scenarioAttempt, 0);
    NumReads("payloadAttempt", o.payloadAttempt, 0);
    NumReads("bodyBytes", o.bodyBytes, 0);
    NumReads("receivedAtMs", o.receivedAtMs, 0);
  }

  lemma RawReadsRefused(o: Observation)
    requires !ObservationInRange(o)
    ensures ParseRaw(RawOf(o)).Err?
  {
    ExactOrNoneIff();
    hide ScenarioFrom, NullableStringFrom, SafeIntegerFrom, Trim, ExactOrNone, ExactText;
    TextReads(o.scenario, "activityId", o.activityId);
    NumReads("sequence", o.sequence, 0);
    NumReads("scenarioAttempt", o.scenarioAttempt, 0);
    NumReads("payloadAttempt", o.payloadAttempt, 0);
    NumReads("bodyBytes", o.bodyBytes, 0);
    NumReads("receivedAtMs", o.receivedAtMs, 0);
  }

  lemma RawReads(o: Observation)
    ensures ObservationInRange(o) ==> ParseRaw(RawOf(o)) == Ok(o)
    ensures !ObservationInRange(o) ==> ParseRaw(RawOf(o)).Err?
  {
    hide ParseRaw, RawOf, ObservationInRange;
    if ObservationInRange(o) {
      RawReadsInRange(o);
    } else {
      RawReadsRefused(o);
    }
  }

  lemma ObservationRoundTrip(o: Observation)
    ensures ObservationInRange(o) ==> ParseObservation(ObservationJson(o)) == Ok(o)
    ensures !ObservationInRange(o) ==> ParseObservation(ObservationJson(o)).Err?
  {
    NumberFields(o);
    RequestFields(o);
    BodyFields(o);
    HeaderFields(o);
    DigestFields(o);
    SignatureFields(o);
    RawReads(o);
  }

  lemma ObservationsRoundTrip(os: seq<Observation>)
    ensures (forall o :: o in os ==> ObservationInRange(o)) ==> ParseObservations(ObservationsJson(os)) == Ok(os)
    ensures !(forall o :: o in os ==> ObservationInRange(o)) ==> ParseObservations(ObservationsJson(os)).Err?
  {
    var items := ObservationsJson(os);
    EachRoundTrips(os);
    TraverseIs(ParseObservation, items, os);
    var parsed := ParseObservations(items);
    if parsed.Ok? {
      TraverseIs(ParseObservation, items, parsed.value);
    }
  }

  lemma EachRoundTrips(os: seq<Observation>)
    ensures forall i :: 0 <= i < |os| ==>
              ParseObservation(ObservationsJson(os)[i]).Ok? == ObservationInRange(os[i])
              && (ObservationInRange(os[i]) ==> ParseObservation(ObservationsJson(os)[i]) == Ok(os[i]))
  {
    forall i | 0 <= i < |os|
      ensures ParseObservation(ObservationsJson(os)[i]).Ok? == ObservationInRange(os[i])
      ensures ObservationInRange(os[i]) ==> ParseObservation(ObservationsJson(os)[i]) == Ok(os[i])
    {
      ObservationRoundTrip(os[i]);
    }
  }

  lemma CountsRoundTrip(c: Counts)
    ensures CountsInRange(c) ==> ParseCounts(CountsJson(c)) == Ok(c)
    ensures !CountsInRange(c) ==> ParseCounts(CountsJson(c)).Err?
  {
    NumReads("counts.success", c.success, 0);
    NumReads("counts.transient", c.transient, 0);
    NumReads("counts.permanent", c.permanent, 0);
  }

  function PartsOf(s: Snapshot): Result<Snapshot, ParseError> {
    ParseParts(
      Some(Num(s.transientFailuresBeforeSuccess)), Some(Num(s.maxObservations)), Some(Num(s.totalRequests)),
      Some(Num(s.droppedObservations)), CountsJson(s.counts), ObservationsJson(s.observations))
  }

  lemma ReadsParts(s: Snapshot)
    ensures ParseControlledTargetSnapshot(ToJson(s)) == PartsOf(s)
  {
    var j := ToJson(s);
    assert Field(j, "version") == Some(Num(1));
    assert Field(j, "counts") == Some(CountsJson(s.counts));
    assert Field(j, "observations") == Some(JArray(ObservationsJson(s.observations)));
    assert Field(j, "transientFailuresBeforeSuccess") == Some(Num(s.transientFailuresBeforeSuccess));
    assert Field(j, "maxObservations") == Some(Num(s.maxObservations));
    assert Field(j, "totalRequests") == Some(Num(s.totalRequests));
    assert Field(j, "droppedObservations") == Some(Num(s.droppedObservations));
  }

  lemma PartsAre(s: Snapshot)
    ensures InRange(s) ==> PartsOf(s) == Ok(s)
    ensures !InRange(s) ==> PartsOf(s).Err?
  {
    NumReads("transientFailuresBeforeSuccess", s.transientFailuresBeforeSuccess, 0);
    NumReads("maxObservations", s.maxObservations, 1);
    NumReads("totalRequests", s.totalRequests, 0);
    NumReads("droppedObservations", s.droppedObservations, 0);
    CountsRoundTrip(s.counts);
    ObservationsRoundTrip(s.observations);
  }

  /** A serialised snapshot is read back unchanged exactly when it is in range and reconciles; else it is refused. */
  lemma SnapshotRoundTrip(s: Snapshot)
    ensures ParseControlledTargetSnapshot(ToJson(s)) == Ok(s) <==> InRange(s)
    ensures ParseControlledTargetSnapshot(ToJson(s)).Err? <==> !InRange(s)
  {
    ReadsParts(s);
    PartsAre(s);
  }

  // ----- nothing out of range is ever accepted -----

  lemma RawIsSound(raw: RawObservation)
    ensures ParseRaw(raw).Ok? ==> ObservationInRange(ParseRaw(raw).value)
  {
    ExactOrNoneIff();
    hide ExactOrNone, ExactText, ScenarioFrom, NullableStringFrom;
  }

  lemma ObservationIsSound(item: Json)
    ensures ParseObservation(item).Ok? ==> ObservationInRange(ParseObservation(item).value)
  {
    RawIsSound(Raw(item));
  }

  lemma ObservationsAreSound(items: seq<Json>)
    requires ParseObservations(items).Ok?
    ensures var os := ParseObservations(items).value;
            |os| == |items| && forall o :: o in os ==> ObservationInRange(o)
  {
    var os := ParseObservations(items).value;
    TraverseIs(ParseObservation, items, os);
    forall i | 0 <= i < |os| ensures ObservationInRange(os[i]) {
      ObservationIsSound(items[i]);
    }
  }

  lemma PartsAreSound(
      failures: Option<Json>, maximum: Option<Json>, total: Option<Json>, dropped: Option<Json>,
      counts: Json, items: seq<Json>)
    ensures var parsed := ParseParts(failures, maximum, total, dropped, counts, items);
            parsed.Ok? ==> InRange(parsed.value)
  {
    hide ParseObservations, ObservationInRange;
    if ParseObservations(items).Ok? {
      ObservationsAreSound(items);
    }
  }

  /** Whatever JSON is offered, an accepted snapshot reconciles, and serialising it is accepted as the same snapshot. */
  lemma AcceptedSnapshotsReconcile(value: Json)
    requires ParseControlledTargetSnapshot(value).Ok?
    ensures var s := ParseControlledTargetSnapshot(value).value;
            InRange(s) && ParseControlledTargetSnapshot(ToJson(s)) == Ok(s)
  {
    var failures, maximum := Field(value, "transientFailuresBeforeSuccess"), Field(value, "maxObservations");
    var total, dropped := Field(value, "totalRequests"), Field(value, "droppedObservations");
    var counts, items := Field(value, "counts").value, Field(value, "observations").value.items;
    PartsAreSound(failures, maximum, total, dropped, counts, items);
    SnapshotRoundTrip(ParseControlledTargetSnapshot(value).value);
  }

  // ----- every snapshot of every run -----

  lemma {:induction false} CountsAreBounded(log: seq<Observation>, s: Scenario, hash: string)
    ensures CountScenario(log, s) <= |log| && CountHash(log, hash) <= |log|
  {
    if log != [] {
      CountsAreBounded(log[..|log| - 1], s, hash);
    }
  }

  /** Numbers an observation of the log carries: all at most the length of the log. */
  ghost predicate Bounded(o: Observation, n: nat) {
    o.sequence <= n && o.scenarioAttempt <= n && o.payloadAttempt <= n && ExactOrNone(o.activityId)
  }

  /** What the target handles is what it made of some request. */
  ghost predicate FromRequest(e: Event) {
    e.Handle? ==> exists host, req :: e.arrival == Arrive(host, req)
  }

  /** Every arrival the target makes of a request carries an exact activity id or none. */
  lemma ArrivalsAreExact(host: Host, req: Request)
    ensures ExactOrNone(Arrive(host, req).seen.activityId)
  {
  }

  lemma {:induction false} LogIsBounded(events: seq<Event>)
    requires forall e :: e in events ==> FromRequest(e)
    ensures forall o :: o in Log(events) ==> Bounded(o, |Log(events)|)
  {
    if events != [] {
      var front, last := events[..|events| - 1], events[|events| - 1];
      LogIsBounded(front);
      assert FromRequest(last);
      if last.Handle? && last.arrival.isPost {
        var host, req :| last.arrival == Arrive(host, req);
        ArrivalsAreExact(host, req);
        CountsAreBounded(Log(front), last.arrival.seen.scenario, last.arrival.seen.bodySha256);
      }
    }
  }

  /** Sizes and clock readings the target does not bound itself. */
  ghost predicate SafeReadings(o: Observation) {
    SafeInteger(o.bodyBytes) && 0 <= o.receivedAtMs && SafeInteger(o.receivedAtMs)
  }

  lemma RetainedAreBounded(cfg: Config, events: seq<Event>)
    requires cfg.maxObservations >= 1 && forall e :: e in events ==> FromRequest(e)
    ensures forall o :: o in RunAll(cfg, events).observations ==> Bounded(o, RunAll(cfg, events).totalRequests)
  {
    LedgerRefinesLog(cfg, events);
    LogIsBounded(events);
  }

  lemma ReadingsDecide(o: Observation, n: nat)
    requires Bounded(o, n) && SafeInteger(n)
    ensures ObservationInRange(o) <==> SafeReadings(o)
  {
    ExactOrNoneIff();
    hide ExactOrNone, ExactText;
  }

  lemma RunInRange(cfg: Config, events: seq<Event>)
    requires Configure(cfg.transientFailuresBeforeSuccess, cfg.maxObservations) == Ok(cfg)
    requires forall e :: e in events ==> FromRequest(e)
    ensures var l := RunAll(cfg, events);
            InRange(SnapshotOf(cfg, l))
            <==> SafeInteger(l.totalRequests) && forall o :: o in l.observations ==> SafeReadings(o)
  {
    var l := RunAll(cfg, events);
    LedgerReconciles(cfg, events);
    RetainedAreBounded(cfg, events);
    hide RunAll, FromRequest, ObservationInRange, SafeReadings, Bounded;
    if SafeInteger(l.totalRequests) {
      forall o | o in l.observations ensures ObservationInRange(o) <==> SafeReadings(o) {
        ReadingsDecide(o, l.totalRequests);
      }
    }
  }

  /**
   After any sequence of requests and resets the target's snapshot is accepted unchanged by the client,
   exactly while the request count and the retained body sizes and clock readings are safe integers.
   */
  lemma EverySnapshotIsAccepted(cfg: Config, events: seq<Event>)
    requires Configure(cfg.transientFailuresBeforeSuccess, cfg.maxObservations) == Ok(cfg)
    requires forall e :: e in events ==> FromRequest(e)
    ensures var l := RunAll(cfg, events);
            ParseControlledTargetSnapshot(ToJson(SnapshotOf(cfg, l))) == Ok(SnapshotOf(cfg, l))
            <==> SafeInteger(l.totalRequests) && forall o :: o in l.observations ==> SafeReadings(o)
  {
    RunInRange(cfg, events);
    SnapshotRoundTrip(SnapshotOf(cfg, RunAll(cfg, events)));
  }
}

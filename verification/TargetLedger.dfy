/**
 The controlled ActivityPub target: a bounded ring of observations with counters and per-payload
 retry behaviour (fedify-sidecar/src/adsp/ControlledActivityPubTarget.ts).
 */
module TargetLedger {
  import opened Prelude
  import opened JsonTree

  datatype Scenario = Success | Transient | Permanent

  function ScenarioName(s: Scenario): string {
    match s
    case Success => "success"
    case Transient => "transient"
    case Permanent => "permanent"
  }

  /** The scenario a JSON value names, or the given error. */
  function ScenarioFrom<E>(value: Option<Json>, error: E): Result<Scenario, E> {
    if value == Some(JString("success")) then Ok(Success)
    else if value == Some(JString("transient")) then Ok(Transient)
    else if value == Some(JString("permanent")) then Ok(Permanent)
    else Err(error)
  }

  datatype HeaderValue = One(value: string) | Many(values: seq<string>)

  datatype Request = Request(
    scenario: Scenario, httpMethod: string, path: string, headers: map<string, HeaderValue>,
    body: seq<byte>, nowMs: int)

  /** Hashing, digest comparison and JSON parsing, as functions of the bytes. */
  datatype Host = Host(
    sha256Hex: seq<byte> -> string,
    digestMatches: (string, seq<byte>) -> bool,
    parseJson: seq<byte> -> Option<Json>)

  datatype Observation = Observation(
    sequence: nat, scenario: Scenario, scenarioAttempt: nat, payloadAttempt: nat,
    httpMethod: string, path: string, bodyBytes: nat, bodySha256: string, activityId: Option<string>,
    contentType: Option<string>, host: Option<string>,
    hasDate: bool, hasDigest: bool, hasValidDigest: bool, hasSignature: bool, receivedAtMs: int)

  datatype Reply =
    | MethodNotAllowed
    | MissingSignatureHeaders(hasDate: bool, hasDigest: bool, hasSignature: bool)
    | InvalidDigest
    | UnsupportedMediaType
    | ControlledPermanentFailure
    | ControlledTransientFailure(attempt: nat)
    | Accepted(scenario: Scenario, payloadAttempt: nat)

  function StatusCode(reply: Reply): nat {
    match reply
    case MethodNotAllowed => 405
    case MissingSignatureHeaders(_, _, _) => 400
    case InvalidDigest => 400
    case UnsupportedMediaType => 415
    case ControlledPermanentFailure => 410
    case ControlledTransientFailure(_) => 503
    case Accepted(_, _) => 202
  }

  // ----- header helpers -----

  function SingleHeader(headers: map<string, HeaderValue>, name: string): Option<string> {
    if name !in headers then None
    else match headers[name]
      case One(value) => Some(value)
      case Many(values) => Some(Join(values, ","))
  }

  predicate HasNonEmptyHeader(headers: map<string, HeaderValue>, name: string) {
    var value := SingleHeader(headers, name);
    value.Some? && Trim(value.value) != ""
  }

  predicate IsActivityJson(contentType: Option<string>) {
    contentType.Some? && Lower(Trim(TextBefore(contentType.value, ';'))) == "application/activity+json"
  }

  predicate HasValidDigest(host: Host, req: Request) {
    var digest := SingleHeader(req.headers, "digest");
    digest.Some? && digest.value != "" && host.digestMatches(digest.value, req.body)
  }

  function ExtractActivityId(host: Host, body: seq<byte>): Option<string> {
    match host.parseJson(body)
    case None => None
    case Some(parsed) =>
      match Field(parsed, "id")
      case Some(JString(id)) => if |id| > 0 && id == Trim(id) then Some(id) else None
      case _ => None
  }

  predicate IsPost(req: Request) {
    Upper(req.httpMethod) == "POST"
  }

  // ----- the ledger -----

  datatype Config = Config(transientFailuresBeforeSuccess: nat, maxObservations: nat)

  /** The constructor's argument checks. */
  function Configure(transientFailuresBeforeSuccess: int, maxObservations: int): Result<Config, string> {
    if !SafeInteger(transientFailuresBeforeSuccess) || transientFailuresBeforeSuccess < 0 then
      Err("transientFailuresBeforeSuccess must be a non-negative safe integer")
    else if !SafeInteger(maxObservations) || maxObservations < 1 then
      Err("maxObservations must be a positive safe integer")
    else Ok(Config(transientFailuresBeforeSuccess, maxObservations))
  }

  /** Both numbers must be integers up to 2^53 - 1, the first at least 0 and the second at least 1. */
  lemma ConfigureIff(transientFailuresBeforeSuccess: int, maxObservations: int)
    ensures Configure(transientFailuresBeforeSuccess, maxObservations).Ok?
       <==> 0 <= transientFailuresBeforeSuccess < 0x20_0000_0000_0000 && 1 <= maxObservations < 0x20_0000_0000_0000
    ensures Configure(transientFailuresBeforeSuccess, maxObservations).Ok? ==>
              Configure(transientFailuresBeforeSuccess, maxObservations).value
              == Config(transientFailuresBeforeSuccess, maxObservations)
  {
  }

  datatype Counts = Counts(success: nat, transient: nat, permanent: nat)

  datatype Ledger = Ledger(
    observations: seq<Observation>, payloadAttempts: map<string, nat>, counts: Counts,
    totalRequests: nat, droppedObservations: nat)

  const Empty: Ledger := Ledger([], map[], Counts(0, 0, 0), 0, 0)

  function CountOf(counts: Counts, s: Scenario): nat {
    match s
    case Success => counts.success
    case Transient => counts.transient
    case Permanent => counts.permanent
  }

  function Bump(counts: Counts, s: Scenario): Counts {
    match s
    case Success => counts.(success := counts.success + 1)
    case Transient => counts.(transient := counts.transient + 1)
    case Permanent => counts.(permanent := counts.permanent + 1)
  }

  lemma BumpCounts(counts: Counts, s: Scenario)
    ensures CountOf(Bump(counts, s), s) == CountOf(counts, s) + 1
  {
  }

  function AttemptsOf(attempts: map<string, nat>, hash: string): nat {
    if hash in attempts then attempts[hash] else 0
  }

  /** A request as the state machine sees it: judged, and observed up to its three running numbers. */
  datatype Arrival = Arrival(isPost: bool, isActivityJson: bool, seen: Observation)

  function Arrive(host: Host, req: Request): Arrival {
    Arrival(
      IsPost(req),
      IsActivityJson(SingleHeader(req.headers, "content-type")),
      Observation(
        0, req.scenario, 0, 0, Upper(req.httpMethod), req.path, |req.body|,
        host.sha256Hex(req.body), ExtractActivityId(host, req.body),
        SingleHeader(req.headers, "content-type"), SingleHeader(req.headers, "host"),
        HasNonEmptyHeader(req.headers, "date"), HasNonEmptyHeader(req.headers, "digest"),
        HasValidDigest(host, req), HasNonEmptyHeader(req.headers, "signature"), req.nowMs))
  }

  function Numbered(o: Observation, sequence: nat, scenarioAttempt: nat, payloadAttempt: nat): Observation {
    o.(sequence := sequence, scenarioAttempt := scenarioAttempt, payloadAttempt := payloadAttempt)
  }

  function ReplyTo(cfg: Config, isActivityJson: bool, o: Observation): Reply {
    if !o.hasDate || !o.hasDigest || !o.hasSignature then
      MissingSignatureHeaders(o.hasDate, o.hasDigest, o.hasSignature)
    else if !o.hasValidDigest then InvalidDigest
    else if !isActivityJson then UnsupportedMediaType
    else if o.scenario.Permanent? then ControlledPermanentFailure
    else if o.scenario.Transient? && o.payloadAttempt <= cfg.transientFailuresBeforeSuccess then
      ControlledTransientFailure(o.payloadAttempt)
    else Accepted(o.scenario, o.payloadAttempt)
  }

  // ----- what a request is answered, read off the request -----

  /** The header's text: its value, or its values joined by commas. */
  ghost predicate HeaderText(req: Request, name: string, text: string) {
    && name in req.headers
    && (req.headers[name] == One(text)
        || exists values :: req.headers[name] == Many(values) && text == Join(values, ","))
  }

  ghost predicate HasText(req: Request, name: string) {
    exists text :: HeaderText(req, name, text) && !Blank(text)
  }

  /** POST, in upper or lower case. */
  ghost predicate Posted(req: Request) {
    && |req.httpMethod| == 4
    && forall i :: 0 <= i < 4 ==> req.httpMethod[i] == "POST"[i] || req.httpMethod[i] == "post"[i]
  }

  /** The media type, up to parameters, is that of activities. */
  ghost predicate SendsActivity(req: Request) {
    exists mediaType, parameters ::
      && HeaderText(req, "content-type", mediaType + parameters)
      && ';' !in mediaType && (parameters == "" || parameters[0] == ';')
      && Lower(Trim(mediaType)) == "application/activity+json"
  }

  ghost predicate DigestMatches(host: Host, req: Request) {
    exists text :: HeaderText(req, "digest", text) && text != "" && host.digestMatches(text, req.body)
  }

  ghost predicate Signed(req: Request) {
    HasText(req, "date") && HasText(req, "digest") && HasText(req, "signature")
  }

  /** The answer to a request of whose body so many came before. */
  ghost predicate Answers(cfg: Config, host: Host, earlier: nat, req: Request, reply: Reply) {
    var good := Posted(req) && Signed(req) && DigestMatches(host, req) && SendsActivity(req);
    var failing := req.scenario == Transient && earlier < cfg.transientFailuresBeforeSuccess;
    && (reply == MethodNotAllowed <==> !Posted(req))
    && (reply == MissingSignatureHeaders(HasText(req, "date"), HasText(req, "digest"), HasText(req, "signature"))
        <==> Posted(req) && !Signed(req))
    && (reply == InvalidDigest <==> Posted(req) && Signed(req) && !DigestMatches(host, req))
    && (reply == UnsupportedMediaType
        <==> Posted(req) && Signed(req) && DigestMatches(host, req) && !SendsActivity(req))
    && (reply == ControlledPermanentFailure <==> good && req.scenario == Permanent)
    && (reply == ControlledTransientFailure(earlier + 1) <==> good && failing)
    && (reply == Accepted(req.scenario, earlier + 1) <==> good && req.scenario != Permanent && !failing)
  }

  /** The status, by the same conditions. */
  ghost predicate HasStatus(cfg: Config, host: Host, earlier: nat, req: Request, status: nat) {
    var failing := req.scenario == Transient && earlier < cfg.transientFailuresBeforeSuccess;
    status == if !Posted(req) then 405
              else if !Signed(req) || !DigestMatches(host, req) then 400
              else if !SendsActivity(req) then 415
              else if req.scenario == Permanent then 410
              else if failing then 503
              else 202
  }

  /** What a POST is recorded as, up to the running numbers. */
  ghost predicate Observes(host: Host, req: Request, o: Observation) {
    && o.scenario == req.scenario && o.httpMethod == "POST" && o.path == req.path
    && o.bodyBytes == |req.body| && o.bodySha256 == host.sha256Hex(req.body) && o.receivedAtMs == req.nowMs
    && (forall id :: o.activityId == Some(id) <==>
          && ExactText(id) && host.parseJson(req.body).Some?
          && Field(host.parseJson(req.body).value, "id") == Some(JString(id)))
    && (forall text :: o.contentType == Some(text) <==> HeaderText(req, "content-type", text))
    && (forall text :: o.host == Some(text) <==> HeaderText(req, "host", text))
    && (o.hasDate <==> HasText(req, "date")) && (o.hasDigest <==> HasText(req, "digest"))
    && (o.hasValidDigest <==> DigestMatches(host, req)) && (o.hasSignature <==> HasText(req, "signature"))
  }

  lemma HeaderIs(req: Request, name: string, text: string)
    ensures SingleHeader(req.headers, name) == Some(text) <==> HeaderText(req, name, text)
  {
  }

  lemma HasTextIff(req: Request, name: string)
    ensures HasNonEmptyHeader(req.headers, name) <==> HasText(req, name)
  {
    hide Trim, Blank, SingleHeader, HeaderText;
    forall text ensures SingleHeader(req.headers, name) == Some(text) <==> HeaderText(req, name, text) {
      HeaderIs(req, name, text);
    }
    forall text ensures Trim(text) == "" <==> Blank(text) {
      BlankIff(text);
    }
  }

  lemma PostedIff(req: Request)
    ensures IsPost(req) <==> Posted(req)
  {
    var m := req.httpMethod;
    if IsPost(req) {
      assert |m| == |Upper(m)| == 4;
      assert forall i :: 0 <= i < 4 ==> Upper(m)[i] == UpperChar(m[i]) == "POST"[i];
    }
    if Posted(req) {
      assert forall i :: 0 <= i < 4 ==> Upper(m)[i] == "POST"[i];
      assert Upper(m) == "POST";
    }
  }

  lemma MediaTypeIff(req: Request)
    ensures IsActivityJson(SingleHeader(req.headers, "content-type")) <==> SendsActivity(req)
  {
    hide Trim, Lower, SingleHeader, HeaderText, TextBefore;
    var value := SingleHeader(req.headers, "content-type");
    forall text ensures value == Some(text) <==> HeaderText(req, "content-type", text) {
      HeaderIs(req, "content-type", text);
    }
    if value.Some? {
      var tail := TextBeforeSplits(value.value, ';');
    }
    if mediaType, parameters :|
         && HeaderText(req, "content-type", mediaType + parameters)
         && ';' !in mediaType && (parameters == "" || parameters[0] == ';')
         && Lower(Trim(mediaType)) == "application/activity+json"
    {
      TextBeforeIs(mediaType + parameters, mediaType, parameters, ';');
    }
  }

  lemma DigestIff(host: Host, req: Request)
    ensures HasValidDigest(host, req) <==> DigestMatches(host, req)
  {
    hide SingleHeader, HeaderText;
    forall text ensures SingleHeader(req.headers, "digest") == Some(text) <==> HeaderText(req, "digest", text) {
      HeaderIs(req, "digest", text);
    }
  }

  lemma ActivityIdIs(host: Host, body: seq<byte>, id: string)
    ensures ExtractActivityId(host, body) == Some(id)
       <==> ExactText(id) && host.parseJson(body).Some? && Field(host.parseJson(body).value, "id") == Some(JString(id))
  {
    hide Trim, ExactText;
    ExactIff(id);
  }

  /** What is seen of a POST. */
  lemma ArrivalIs(host: Host, req: Request)
    ensures var a := Arrive(host, req);
            && (a.isPost <==> Posted(req)) && (a.isActivityJson <==> SendsActivity(req))
            && (Posted(req) ==> Observes(host, req, a.seen))
  {
    hide IsActivityJson, HasNonEmptyHeader, HasValidDigest, ExtractActivityId, SingleHeader, HeaderText, HasText,
         DigestMatches, SendsActivity, Posted, ExactText, Upper;
    PostedIff(req);
    MediaTypeIff(req);
    DigestIff(host, req);
    HasTextIff(req, "date");
    HasTextIff(req, "digest");
    HasTextIff(req, "signature");
    forall id
      ensures ExtractActivityId(host, req.body) == Some(id)
         <==> && ExactText(id) && host.parseJson(req.body).Some?
              && Field(host.parseJson(req.body).value, "id") == Some(JString(id))
    {
      ActivityIdIs(host, req.body, id);
    }
    forall text, name ensures SingleHeader(req.headers, name) == Some(text) <==> HeaderText(req, name, text) {
      HeaderIs(req, name, text);
    }
  }

  /** The observation a POST adds to this ledger. */
  function NextObservation(l: Ledger, seen: Observation): Observation {
    Numbered(seen, l.totalRequests + 1, CountOf(l.counts, seen.scenario) + 1,
             AttemptsOf(l.payloadAttempts, seen.bodySha256) + 1)
  }

  /** Record an observation, dropping the oldest when the ring is full. */
  function Record(cfg: Config, l: Ledger, o: Observation): Ledger {
    var full := |l.observations| >= cfg.maxObservations && l.observations != [];
    Ledger((if full then l.observations[1..] else l.observations) + [o],
           l.payloadAttempts[o.bodySha256 := o.payloadAttempt],
           Bump(l.counts, o.scenario),
           l.totalRequests + 1,
           if full then l.droppedObservations + 1 else l.droppedObservations)
  }

  function AfterHandle(cfg: Config, l: Ledger, a: Arrival): Ledger {
    if a.isPost then Record(cfg, l, NextObservation(l, a.seen)) else l
  }

  function HandleReply(cfg: Config, l: Ledger, a: Arrival): Reply {
    if a.isPost then ReplyTo(cfg, a.isActivityJson, NextObservation(l, a.seen)) else MethodNotAllowed
  }

  /** Each answer is given exactly on its conditions on the request. */
  lemma ReplyAnswers(cfg: Config, host: Host, l: Ledger, req: Request)
    ensures var earlier := AttemptsOf(l.payloadAttempts, host.sha256Hex(req.body));
            var reply := HandleReply(cfg, l, Arrive(host, req));
            Answers(cfg, host, earlier, req, reply) && HasStatus(cfg, host, earlier, req, StatusCode(reply))
  {
    ArrivalIs(host, req);
    hide Arrive, HasText, DigestMatches, SendsActivity, Posted;
  }

  /** The entry a POST leaves: what is seen of it, numbered by what was there before. */
  ghost predicate Enters(host: Host, l: Ledger, req: Request, o: Observation) {
    && Observes(host, req, o) && o.sequence == l.totalRequests + 1
    && o.scenarioAttempt == CountOf(l.counts, req.scenario) + 1
    && o.payloadAttempt == AttemptsOf(l.payloadAttempts, host.sha256Hex(req.body)) + 1
  }

  lemma LastEntryIs(cfg: Config, host: Host, l: Ledger, req: Request)
    ensures var after := AfterHandle(cfg, l, Arrive(host, req));
            if Posted(req)
            then after.observations != [] && Enters(host, l, req, after.observations[|after.observations| - 1])
            else after == l
  {
    ArrivalIs(host, req);
    hide Arrive, HasText, DigestMatches, SendsActivity, Posted;
  }

  /** The object of the source: fields updated in place. */
  class ControlledActivityPubTargetState {
    const host: Host
    const cfg: Config
    var observations: seq<Observation>
    var payloadAttempts: map<string, nat>
    var counts: Counts
    var totalRequests: nat
    var droppedObservations: nat

    function View(): Ledger
      reads this
    {
      Ledger(observations, payloadAttempts, counts, totalRequests, droppedObservations)
    }

    constructor (host: Host, cfg: Config)
      requires cfg.maxObservations >= 1
      ensures this.host == host && this.cfg == cfg && View() == Empty
    {
      this.host, this.cfg := host, cfg;
      observations, payloadAttempts := [], map[];
      counts := Counts(0, 0, 0);
      totalRequests, droppedObservations := 0, 0;
    }

    method Reset()
      modifies this
      ensures View() == Empty
    {
      observations := [];
      payloadAttempts := map[];
      counts := counts.(success := 0);
      counts := counts.(transient := 0);
      counts := counts.(permanent := 0);
      totalRequests := 0;
      droppedObservations := 0;
    }

    method Handle(request: Request) returns (reply: Reply)
      requires cfg.maxObservations >= 1
      modifies this
      ensures View() == AfterHandle(cfg, old(View()), Arrive(host, request))
      ensures reply == HandleReply(cfg, old(View()), Arrive(host, request))
      ensures Answers(cfg, host, AttemptsOf(old(payloadAttempts), host.sha256Hex(request.body)), request, reply)
      ensures HasStatus(cfg, host, AttemptsOf(old(payloadAttempts), host.sha256Hex(request.body)), request,
                        StatusCode(reply))
      ensures Posted(request) ==>
                observations != [] && Enters(host, old(View()), request, observations[|observations| - 1])
    {
      ReplyAnswers(cfg, host, View(), request);
      LastEntryIs(cfg, host, View(), request);
      hide Upper, ExtractActivityId, HasNonEmptyHeader, HasValidDigest, SingleHeader, IsActivityJson, Bump, ReplyTo,
           Answers, HasStatus, Enters, Posted;
      if Upper(request.httpMethod) != "POST" {
        return MethodNotAllowed;
      }
      var bodySha256 := host.sha256Hex(request.body);
      var payloadAttempt := AttemptsOf(payloadAttempts, bodySha256) + 1;
      payloadAttempts := payloadAttempts[bodySha256 := payloadAttempt];
      counts := Bump(counts, request.scenario);
      totalRequests := totalRequests + 1;
      BumpCounts(old(counts), request.scenario);
      var observation := Numbered(
        Arrive(host, request).seen, totalRequests, CountOf(counts, request.scenario), payloadAttempt);
      if |observations| >= cfg.maxObservations {
        observations := observations[1..];
        droppedObservations := droppedObservations + 1;
      }
      observations := observations + [observation];
      reply := ReplyTo(cfg, IsActivityJson(SingleHeader(request.headers, "content-type")), observation);
    }
  }

  // ----- every run refines the unbounded log -----

  datatype Event = Handle(arrival: Arrival) | Reset

  function Step(cfg: Config, l: Ledger, e: Event): Ledger {
    match e
    case Handle(a) => AfterHandle(cfg, l, a)
    case Reset => Empty
  }

  function RunAll(cfg: Config, events: seq<Event>): Ledger {
    if events == [] then Empty
    else Step(cfg, RunAll(cfg, events[..|events| - 1]), events[|events| - 1])
  }

  function CountScenario(log: seq<Observation>, s: Scenario): nat {
    if log == [] then 0
    else CountScenario(log[..|log| - 1], s) + if log[|log| - 1].scenario == s then 1 else 0
  }

  function CountHash(log: seq<Observation>, hash: string): nat {
    if log == [] then 0
    else CountHash(log[..|log| - 1], hash) + if log[|log| - 1].bodySha256 == hash then 1 else 0
  }

  /** Reference: every POST since the last reset, numbered from the log alone. */
  function Log(events: seq<Event>): seq<Observation> {
    if events == [] then []
    else LogStep(Log(events[..|events| - 1]), events[|events| - 1])
  }

  function LogStep(log: seq<Observation>, e: Event): seq<Observation> {
    match e
    case Reset => []
    case Handle(a) => if a.isPost then log + [LogObservation(log, a.seen)] else log
  }

  function LogObservation(log: seq<Observation>, seen: Observation): Observation {
    Numbered(seen, |log| + 1, CountScenario(log, seen.scenario) + 1, CountHash(log, seen.bodySha256) + 1)
  }

  function Kept(cfg: Config, log: seq<Observation>): nat {
    if |log| <= cfg.maxObservations then |log| else cfg.maxObservations
  }

  /** The ledger holds the last maxObservations entries of the log, and its counters count the log. */
  ghost predicate Refines(cfg: Config, l: Ledger, log: seq<Observation>) {
    && l.observations == log[|log| - Kept(cfg, log)..]
    && l.totalRequests == |log|
    && l.droppedObservations == |log| - Kept(cfg, log)
    && (forall s :: CountOf(l.counts, s) == CountScenario(log, s))
    && (forall hash :: AttemptsOf(l.payloadAttempts, hash) == CountHash(log, hash))
  }

  lemma CountsOfAppended(log: seq<Observation>, o: Observation)
    ensures forall s :: CountScenario(log + [o], s) == CountScenario(log, s) + if o.scenario == s then 1 else 0
    ensures forall hash :: CountHash(log + [o], hash) == CountHash(log, hash) + if o.bodySha256 == hash then 1 else 0
  {
    assert (log + [o])[..|log + [o]| - 1] == log;
  }

  /** Pushing onto the log moves the window of the last entries by one, once it is full. */
  lemma WindowMoves(cfg: Config, log: seq<Observation>, o: Observation)
    requires cfg.maxObservations >= 1
    ensures var kept := log[|log| - Kept(cfg, log)..];
            (log + [o])[|log| + 1 - Kept(cfg, log + [o])..]
            == (if |kept| >= cfg.maxObservations then kept[1..] else kept) + [o]
  {
    var start := |log| - Kept(cfg, log);
    if |log| >= cfg.maxObservations {
      assert log[start..][1..] == log[start + 1..];
      assert (log + [o])[start + 1..] == log[start + 1..] + [o];
    } else {
      assert log[start..] == log && (log + [o])[0..] == log + [o];
    }
  }

  lemma CountersRefine(l: Ledger, log: seq<Observation>, o: Observation, cfg: Config)
    requires Refines(cfg, l, log) && o.payloadAttempt == CountHash(log, o.bodySha256) + 1
    ensures forall s :: CountOf(Record(cfg, l, o).counts, s) == CountScenario(log + [o], s)
    ensures forall hash :: AttemptsOf(Record(cfg, l, o).payloadAttempts, hash) == CountHash(log + [o], hash)
  {
    CountsOfAppended(log, o);
  }

  lemma RecordRefines(cfg: Config, l: Ledger, log: seq<Observation>, o: Observation)
    requires cfg.maxObservations >= 1 && Refines(cfg, l, log)
    requires o.payloadAttempt == CountHash(log, o.bodySha256) + 1
    ensures Refines(cfg, Record(cfg, l, o), log + [o])
  {
    hide CountOf, AttemptsOf, CountScenario, CountHash, Bump;
    CountersRefine(l, log, o, cfg);
    WindowMoves(cfg, log, o);
  }

  lemma SameObservation(cfg: Config, l: Ledger, log: seq<Observation>, seen: Observation)
    requires Refines(cfg, l, log)
    ensures NextObservation(l, seen) == LogObservation(log, seen)
  {
  }

  lemma StepRefines(cfg: Config, l: Ledger, log: seq<Observation>, e: Event)
    requires cfg.maxObservations >= 1 && Refines(cfg, l, log)
    ensures Refines(cfg, Step(cfg, l, e), LogStep(log, e))
  {
    if e.Handle? {
      SameObservation(cfg, l, log, e.arrival.seen);
      RecordRefines(cfg, l, log, NextObservation(l, e.arrival.seen));
    }
  }

  /** The bounded ledger refines the unbounded log over every sequence of requests and resets. */
  lemma {:induction false} LedgerRefinesLog(cfg: Config, events: seq<Event>)
    requires cfg.maxObservations >= 1
    ensures Refines(cfg, RunAll(cfg, events), Log(events))
  {
    if events != [] {
      var front, last := events[..|events| - 1], events[|events| - 1];
      LedgerRefinesLog(cfg, front);
      StepRefines(cfg, RunAll(cfg, front), Log(front), last);
    }
  }

  lemma {:induction false} ScenariosSum(log: seq<Observation>)
    ensures CountScenario(log, Success) + CountScenario(log, Transient) + CountScenario(log, Permanent) == |log|
  {
    if log != [] {
      ScenariosSum(log[..|log| - 1]);
    }
  }

  lemma {:induction false} LogIsNumbered(events: seq<Event>)
    ensures forall i :: 0 <= i < |Log(events)| ==> Log(events)[i].sequence == i + 1
  {
    if events != [] {
      LogIsNumbered(events[..|events| - 1]);
    }
  }

  /** Totals reconcile, and the retained sequence numbers are contiguous up to the total. */
  lemma {:induction false} LedgerReconciles(cfg: Config, events: seq<Event>)
    requires cfg.maxObservations >= 1
    ensures var l := RunAll(cfg, events);
            && l.counts.success + l.counts.transient + l.counts.permanent == l.totalRequests
            && |l.observations| + l.droppedObservations == l.totalRequests
            && |l.observations| <= cfg.maxObservations
            && forall i :: 0 <= i < |l.observations| ==> l.observations[i].sequence == l.droppedObservations + i + 1
  {
    var l, log := RunAll(cfg, events), Log(events);
    LedgerRefinesLog(cfg, events);
    ScenariosSum(log);
    LogIsNumbered(events);
    assert CountOf(l.counts, Success) == CountScenario(log, Success);
    assert CountOf(l.counts, Transient) == CountScenario(log, Transient);
    assert CountOf(l.counts, Permanent) == CountScenario(log, Permanent);
  }

  // ----- retries -----

  /** A POST that is signed, digest-matching and ActivityStreams JSON is judged by its scenario alone. */
  predicate WellFormed(a: Arrival) {
    a.isPost && a.isActivityJson && a.seen.hasDate && a.seen.hasDigest && a.seen.hasSignature && a.seen.hasValidDigest
  }

  /** The n-th answer (from 0) to a body posted under a scenario. */
  function NthStatus(cfg: Config, s: Scenario, n: nat): nat {
    match s
    case Permanent => 410
    case Success => 202
    case Transient => if n < cfg.transientFailuresBeforeSuccess then 503 else 202
  }

  predicate Posts(e: Event, hash: string) {
    e.Handle? && e.arrival.isPost && e.arrival.seen.bodySha256 == hash
  }

  /** The status code of a request that follows the given events. */
  function StatusAfter(cfg: Config, events: seq<Event>, a: Arrival): nat {
    StatusCode(HandleReply(cfg, RunAll(cfg, events), a))
  }

  /** Status codes answered to the posts of one body hash among `events`, which follow `before`. */
  function Statuses(cfg: Config, hash: string, before: seq<Event>, events: seq<Event>): seq<nat> {
    if events == [] then []
    else
      var front, last := events[..|events| - 1], events[|events| - 1];
      Statuses(cfg, hash, before, front)
      + if Posts(last, hash)
        then [StatusAfter(cfg, before + front, last.arrival)]
        else []
  }

  /** All posts of the hash among the events are one client's well-formed sends, and nothing resets. */
  ghost predicate Sends(hash: string, s: Scenario, events: seq<Event>) {
    forall e :: e in events ==>
      e.Handle? && (Posts(e, hash) ==> WellFormed(e.arrival) && e.arrival.seen.scenario == s)
  }

  /** A well-formed request is answered by its scenario and how often its body came before. */
  lemma AnswerIs(cfg: Config, l: Ledger, a: Arrival)
    requires WellFormed(a)
    ensures StatusCode(HandleReply(cfg, l, a))
         == NthStatus(cfg, a.seen.scenario, AttemptsOf(l.payloadAttempts, a.seen.bodySha256))
  {
  }

  /** After any run, by the run alone: the answer to a request, whose body was posted so often since the last reset. */
  lemma AnswersAre(cfg: Config, host: Host, events: seq<Event>, req: Request)
    requires cfg.maxObservations >= 1
    ensures var earlier := CountHash(Log(events), host.sha256Hex(req.body));
            var reply := HandleReply(cfg, RunAll(cfg, events), Arrive(host, req));
            Answers(cfg, host, earlier, req, reply) && HasStatus(cfg, host, earlier, req, StatusCode(reply))
  {
    LedgerRefinesLog(cfg, events);
    ReplyAnswers(cfg, host, RunAll(cfg, events), req);
  }

  /** A request is well formed as it arrives exactly when it is a signed POST of an activity with a matching digest. */
  lemma WellFormedIff(host: Host, req: Request)
    ensures WellFormed(Arrive(host, req))
       <==> Posted(req) && Signed(req) && DigestMatches(host, req) && SendsActivity(req)
  {
    ArrivalIs(host, req);
    HasTextIff(req, "date");
    HasTextIff(req, "digest");
    HasTextIff(req, "signature");
    DigestIff(host, req);
    hide HasText, DigestMatches, SendsActivity, Posted, HasNonEmptyHeader, HasValidDigest, IsActivityJson;
  }

  lemma StatusAfterIs(cfg: Config, events: seq<Event>, a: Arrival)
    requires cfg.maxObservations >= 1 && WellFormed(a)
    ensures StatusAfter(cfg, events, a)
         == NthStatus(cfg, a.seen.scenario, CountHash(Log(events), a.seen.bodySha256))
  {
    LedgerRefinesLog(cfg, events);
    AnswerIs(cfg, RunAll(cfg, events), a);
  }

  lemma {:induction false} StatusCountIs(
      cfg: Config, hash: string, s: Scenario, before: seq<Event>, events: seq<Event>)
    requires Sends(hash, s, events)
    ensures CountHash(Log(before + events), hash)
         == CountHash(Log(before), hash) + |Statuses(cfg, hash, before, events)|
  {
    if events == [] {
      assert before + events == before;
    } else {
      var front, last := events[..|events| - 1], events[|events| - 1];
      assert events == front + [last] && last in events;
      StatusCountIs(cfg, hash, s, before, front);
      LogGrowsBy(before + front, last, hash);
      assert before + events == (before + front) + [last];
    }
  }

  lemma LastStatus(cfg: Config, hash: string, s: Scenario, before: seq<Event>, front: seq<Event>, e: Event)
    requires cfg.maxObservations >= 1 && Sends(hash, s, front + [e]) && Posts(e, hash)
    ensures StatusAfter(cfg, before + front, e.arrival)
         == NthStatus(cfg, s, CountHash(Log(before), hash) + |Statuses(cfg, hash, before, front)|)
  {
    assert e in front + [e];
    SendsFront(hash, s, front, e);
    StatusCountIs(cfg, hash, s, before, front);
    StatusAfterIs(cfg, before + front, e.arrival);
  }

  lemma SendsFront(hash: string, s: Scenario, front: seq<Event>, e: Event)
    requires Sends(hash, s, front + [e])
    ensures Sends(hash, s, front)
  {
    assert forall d :: d in front ==> d in front + [e];
  }

  /** Whatever is interleaved, the k-th answer depends only on how often this body was posted since reset. */
  lemma {:induction false} StatusesAre(
      cfg: Config, hash: string, s: Scenario, before: seq<Event>, events: seq<Event>, k: nat)
    requires cfg.maxObservations >= 1 && Sends(hash, s, events)
    requires k < |Statuses(cfg, hash, before, events)|
    ensures Statuses(cfg, hash, before, events)[k] == NthStatus(cfg, s, CountHash(Log(before), hash) + k)
  {
    var front, last := events[..|events| - 1], events[|events| - 1];
    assert events == front + [last];
    if k < |Statuses(cfg, hash, before, front)| {
      SendsFront(hash, s, front, last);
      StatusesAre(cfg, hash, s, before, front, k);
    } else {
      LastStatus(cfg, hash, s, before, front, last);
    }
  }

  lemma LogGrowsBy(events: seq<Event>, e: Event, hash: string)
    requires e.Handle?
    ensures CountHash(Log(events + [e]), hash)
         == CountHash(Log(events), hash) + if Posts(e, hash) then 1 else 0
  {
    assert (events + [e])[..|events + [e]| - 1] == events;
    if e.arrival.isPost {
      CountsOfAppended(Log(events), LogObservation(Log(events), e.arrival.seen));
    }
  }

  /** Requests a client needs for a fresh body: the configured failures and one more, or just one. */
  function RequestsToSettle(s: Scenario, transientFailuresBeforeSuccess: nat): nat {
    if s.Transient? then transientFailuresBeforeSuccess + 1 else 1
  }

  /** The client stopped at its first answer other than 503. */
  ghost predicate StoppedAtFirstNon503(statuses: seq<nat>) {
    && statuses != []
    && statuses[|statuses| - 1] != 503
    && forall k :: 0 <= k < |statuses| - 1 ==> statuses[k] == 503
  }

  /** A client resending a fresh body until a non-503 stops exactly after RequestsToSettle requests. */
  lemma RetryComposition(cfg: Config, hash: string, s: Scenario, before: seq<Event>, events: seq<Event>)
    requires cfg.maxObservations >= 1 && Sends(hash, s, events)
    requires CountHash(Log(before), hash) == 0
    ensures StoppedAtFirstNon503(Statuses(cfg, hash, before, events))
       <==> |Statuses(cfg, hash, before, events)| == RequestsToSettle(s, cfg.transientFailuresBeforeSuccess)
  {
    var statuses := Statuses(cfg, hash, before, events);
    var n := RequestsToSettle(s, cfg.transientFailuresBeforeSuccess);
    forall k | 0 <= k < |statuses| ensures statuses[k] == 503 <==> k < n - 1 {
      StatusesAre(cfg, hash, s, before, events, k);
    }
    assert n <= |statuses| ==> statuses[n - 1] != 503;
  }
}

/**
 HTTP request signing in batches, grouped by actor
 (fedify-sidecar/activitypods-integration/signing.service.js, draft-cavage-http-signatures-12).
 */
module HttpSigning {
  import opened Prelude
  import opened JsonTree

  datatype Code =
    | InvalidInput | ProfileNotAllowed | BodyTooLarge | DigestMismatch | InternalError | ActorNotLocal | KeyUnavailable

  datatype Failure = Failure(code: Code, message: string, retryable: bool)

  datatype Profile = Profile(algorithm: string, signedHeaders: seq<string>, requireDigest: bool)

  const GET_HEADERS: seq<string> := ["(request-target)", "host", "date"]
  const POST_HEADERS: seq<string> := ["(request-target)", "host", "date", "digest"]
  const POST_CT_HEADERS: seq<string> := ["(request-target)", "host", "date", "digest", "content-type"]

  function ProfileNamed(name: Option<string>): Option<Profile> {
    if name == Some("ap_get_v1") then Some(Profile("rsa-sha256", GET_HEADERS, false))
    else if name == Some("ap_post_v1") then Some(Profile("rsa-sha256", POST_HEADERS, true))
    else if name == Some("ap_post_v1_ct") then Some(Profile("rsa-sha256", POST_CT_HEADERS, true))
    else None
  }

  /** One signing request; absent fields are undefined. */
  datatype Request = Request(
    requestId: Option<string>, actorUri: Option<string>, profile: Option<string>, httpMethod: Option<string>,
    host: Option<string>, path: Option<string>, query: Option<string>, date: Option<string>,
    contentType: Option<string>, body: Option<string>, digestMode: Option<string>, digestValue: Option<string>,
    bodyHash: Option<string>)

  datatype Clock = Clock(nowMs: int, httpDate: string)

  /** Limits, hashing, signing, and the answers of the services asked about an actor. */
  datatype Env = Env(
    maxBatch: nat, maxBodyBytes: int, maxClockSkewSeconds: int,
    utf8: string -> seq<byte>, sha256Base64: seq<byte> -> string, parseDate: string -> Option<int>,
    sign: (string, string) -> Result<string, string>,
    isUrl: string -> bool, isLocal: string -> Option<bool>,
    privateKey: string -> Result<Option<string>, string>, keyId: string -> Result<string, string>)

  datatype Outcome =
    | Failed(requestId: Option<string>, failure: Failure)
    | Signed(requestId: Option<string>, actorUri: string, profile: Option<string>, httpMethod: string, path: string,
             host: string, date: string, digest: Option<string>, signatureHeader: string, keyId: string,
             algorithm: string, signedHeaders: string, bodySha256: Option<string>)

  /** `value || fallback` on strings. */
  function Or(value: Option<string>, fallback: string): string {
    if value.None? || value.value == "" then fallback else value.value
  }

  // ----- checks on one request -----

  predicate AssertHost(host: Option<string>) {
    host.Some? && host.value != "" && '/' !in host.value && forall c :: c in host.value ==> !IsSpace(c)
  }

  predicate AssertPath(path: Option<string>) {
    path.Some? && path.value != "" && path.value[0] == '/'
  }

  predicate AllowedMethod(httpMethod: string) {
    httpMethod in ["GET", "POST", "PUT", "DELETE", "PATCH"]
  }

  /** A date that does not parse passes. */
  predicate FreshEnough(env: Env, clock: Clock, date: string) {
    match env.parseDate(date)
    case None => true
    case Some(t) => (if clock.nowMs >= t then clock.nowMs - t else t - clock.nowMs) <= env.maxClockSkewSeconds * 1000
  }

  datatype Digest = Digest(text: string, hash: string)

  function DigestOf(hash: string): Digest {
    Digest("SHA-256=" + hash, hash)
  }

  function CheckDigest(env: Env, r: Request): Result<Digest, Failure> {
    var mode := Or(r.digestMode, "server_compute");
    if mode == "server_compute" then
      if r.body.None? then Err(Failure(InvalidInput, "body.bytes required for POST profile", false))
      else if |env.utf8(r.body.value)| > env.maxBodyBytes then Err(Failure(BodyTooLarge, "body too large", false))
      else Ok(DigestOf(env.sha256Base64(env.utf8(r.body.value))))
    else if mode == "caller_provided_strict" then
      if Or(r.digestValue, "") == "" || r.body.None? then
        Err(Failure(InvalidInput, "digest.value and body.bytes required for caller_provided_strict", false))
      else
        var hash := env.sha256Base64(env.utf8(r.body.value));
        if Or(r.bodyHash, hash) != hash then
          Err(Failure(DigestMismatch, "provided bodyHashSha256Base64 does not match body", false))
        else if r.digestValue.value != DigestOf(hash).text then
          Err(Failure(DigestMismatch, "provided digest does not match computed digest", false))
        else Ok(Digest(r.digestValue.value, hash))
    else Err(Failure(InvalidInput, "unknown digest.mode", false))
  }

  function NormalizeMethod(httpMethod: Option<string>): string {
    Upper(Or(httpMethod, ""))
  }

  function QueryPart(query: Option<string>): string {
    var q := Or(query, "");
    if q == "" then "" else if q[0] == '?' then q else "?" + q
  }

  function BuildRequestTarget(httpMethod: string, path: string, query: Option<string>): string {
    Lower(httpMethod) + " " + path + QueryPart(query)
  }

  /** What a signing string is built from. */
  datatype Parts = Parts(requestTarget: string, host: string, date: string, digest: Option<Digest>, contentType: string)

  function DateOf(clock: Clock, r: Request): string {
    Or(r.date, clock.httpDate)
  }

  function ContentTypeOf(r: Request): string {
    Or(r.contentType, "application/activity+json")
  }

  /** The field checks of one request, in the order the service makes them. */
  function Check(env: Env, clock: Clock, r: Request): Result<Parts, Failure> {
    if ProfileNamed(r.profile).None? then Err(Failure(ProfileNotAllowed, "unknown profile", false))
    else if !AssertHost(r.host) then Err(Failure(InvalidInput, "target.host invalid", false))
    else if !AssertPath(r.path) then Err(Failure(InvalidInput, "target.path invalid", false))
    else if !AllowedMethod(NormalizeMethod(r.httpMethod)) then Err(Failure(InvalidInput, "method invalid", false))
    else if !FreshEnough(env, clock, DateOf(clock, r)) then Err(Failure(InvalidInput, "date skew too large", false))
    else
      var target := BuildRequestTarget(NormalizeMethod(r.httpMethod), r.path.value, r.query);
      if ProfileNamed(r.profile).value.requireDigest then
        var digest :- CheckDigest(env, r);
        Ok(Parts(target, r.host.value, DateOf(clock, r), Some(digest), ContentTypeOf(r)))
      else Ok(Parts(target, r.host.value, DateOf(clock, r), None, ContentTypeOf(r)))
  }

  // ----- the signing string -----

  /** The covered value of a header, or an error for a name the service does not know. */
  function ValueOf(parts: Parts, header: string): Result<string, string> {
    var name := Lower(header);
    if name == "(request-target)" then Ok(parts.requestTarget)
    else if name == "host" then Ok(parts.host)
    else if name == "date" then Ok(parts.date)
    else if name == "digest" then Ok(if parts.digest.Some? then parts.digest.value.text else "null")
    else if name == "content-type" then Ok(parts.contentType)
    else Err("PROFILE_INVALID: unsupported signed header: " + header)
  }

  function LineOf(parts: Parts, header: string): Result<string, string> {
    var value :- ValueOf(parts, header);
    Ok(Lower(header) + ": " + value)
  }

  function Liner(parts: Parts): string -> Result<string, string> {
    header => LineOf(parts, header)
  }

  function SigningString(parts: Parts, headers: seq<string>): Result<string, string> {
    var lines :- Traverse(Liner(parts), headers);
    Ok(Join(lines, "\n"))
  }

  method BuildSigningString(parts: Parts, headers: seq<string>) returns (r: Result<string, string>)
    ensures r == SigningString(parts, headers)
  {
    var lines := [];
    for i := 0 to |headers|
      invariant |lines| == i
      invariant forall k :: 0 <= k < i ==> LineOf(parts, headers[k]) == Ok(lines[k])
    {
      var line := LineOf(parts, headers[i]);
      if line.Err? {
        TraverseStopsAt(Liner(parts), headers, i);
        return Err(line.error);
      }
      lines := lines + [line.value];
    }
    TraverseIs(Liner(parts), headers, lines);
    r := Ok(Join(lines, "\n"));
  }

  function SignatureHeader(keyId: string, algorithm: string, headers: string, signature: string): string {
    "keyId=\"" + keyId + "\",algorithm=\"" + algorithm
    + "\",headers=\"" + headers + "\",signature=\"" + signature + "\""
  }

  /** The answer to a request whose signing string was signed. */
  function SignedWith(r: Request, actorUri: string, keyId: string, parts: Parts, signature: string): (o: Outcome)
    requires ProfileNamed(r.profile).Some? && r.path.Some?
    ensures o.Signed? && o.requestId == r.requestId
  {
    var profile := ProfileNamed(r.profile).value;
    var covered := Join(profile.signedHeaders, " ");
    Signed(r.requestId, actorUri, r.profile, NormalizeMethod(r.httpMethod), r.path.value, parts.host, parts.date,
           if parts.digest.Some? then Some(parts.digest.value.text) else None,
           SignatureHeader(keyId, profile.algorithm, covered, signature), keyId, profile.algorithm, covered,
           if parts.digest.Some? then Some(parts.digest.value.hash) else None)
  }

  /** The text that is signed for a request. */
  function TextToSign(env: Env, clock: Clock, r: Request): Result<string, Failure> {
    var parts :- Check(env, clock, r);
    match SigningString(parts, ProfileNamed(r.profile).value.signedHeaders)
    case Ok(text) => Ok(text)
    case Err(message) => Err(Failure(InternalError, message, true))
  }

  function SignOne(env: Env, clock: Clock, actorUri: string, keyId: string, privateKey: string, r: Request): Outcome {
    var text := TextToSign(env, clock, r);
    if text.Err? then Failed(r.requestId, text.error)
    else
      match env.sign(privateKey, text.value)
      case Err(message) => Failed(r.requestId, Failure(InternalError, Or(Some(message), "signing failed"), true))
      case Ok(signature) => SignedWith(r, actorUri, keyId, Check(env, clock, r).value, signature)
  }

  // ----- the batch -----

  function ActorOf(r: Request): string {
    Or(r.actorUri, "")
  }

  datatype Keys = Keys(keyId: string, privateKey: string)

  function ValidateLocalActor(env: Env, actorUri: string): Result<(), Failure> {
    if actorUri == "" then Err(Failure(InvalidInput, "actorUri missing", false))
    else if !env.isUrl(actorUri) then Err(Failure(InvalidInput, "actorUri not a URL", false))
    else
      match env.isLocal(actorUri)
      case None => Err(Failure(ActorNotLocal, "locality verification unavailable", false))
      case Some(false) => Err(Failure(ActorNotLocal, "actorUri not local", false))
      case Some(true) => Ok(())
  }

  /** The authority boundary: an actor's keys, or why its requests are all refused. */
  function ResolveKeys(env: Env, actorUri: string): Result<Keys, Failure> {
    var local :- ValidateLocalActor(env, actorUri);
    match env.privateKey(actorUri)
    case Err(message) => Err(Failure(KeyUnavailable, Or(Some(message), "key lookup failed"), true))
    case Ok(key) =>
      if Or(key, "") == "" then Err(Failure(KeyUnavailable, "privateKey missing", true))
      else
        match env.keyId(actorUri)
        case Err(message) => Err(Failure(KeyUnavailable, Or(Some(message), "keyId lookup failed"), true))
        case Ok(keyId) => Ok(Keys(keyId, key.value))
  }

  function Answer(env: Env, clock: Clock, keys: Result<Keys, Failure>, r: Request): Outcome {
    match keys
    case Err(failure) => Failed(r.requestId, failure)
    case Ok(k) => SignOne(env, clock, ActorOf(r), k.keyId, k.privateKey, r)
  }

  /** The answer to the i-th request, whose signing reads the i-th clock. */
  function AnswerTo(env: Env, clocks: nat -> Clock, requests: seq<Request>, i: nat): Outcome
    requires i < |requests|
  {
    Answer(env, clocks(i), ResolveKeys(env, ActorOf(requests[i])), requests[i])
  }

  /** The actors in order of first appearance. */
  function Actors(requests: seq<Request>): seq<string> {
    if requests == [] then [] else Add(Actors(requests[..|requests| - 1]), ActorOf(requests[|requests| - 1]))
  }

  /** The positions of one actor's requests. */
  function Positions(requests: seq<Request>, actor: string): seq<nat> {
    if requests == [] then []
    else
      var n := |requests| - 1;
      Positions(requests[..n], actor) + if ActorOf(requests[n]) == actor then [n] else []
  }

  function OrderOf(requests: seq<Request>, actors: seq<string>): seq<nat> {
    if actors == [] then []
    else OrderOf(requests, actors[..|actors| - 1]) + Positions(requests, actors[|actors| - 1])
  }

  /** The order in which a batch is answered. */
  function Order(requests: seq<Request>): seq<nat> {
    OrderOf(requests, Actors(requests))
  }

  ghost predicate InRange(requests: seq<Request>, order: seq<nat>) {
    forall i: nat :: i in order ==> i < |requests|
  }

  function Answers(env: Env, clocks: nat -> Clock, requests: seq<Request>, order: seq<nat>): (r: seq<Outcome>)
    requires InRange(requests, order)
    ensures |r| == |order|
    ensures forall k :: 0 <= k < |order| ==> order[k] < |requests| && r[k] == AnswerTo(env, clocks, requests, order[k])
  {
    assert forall k :: 0 <= k < |order| ==> order[k] in order;
    seq(|order|, k requires 0 <= k < |order| => AnswerTo(env, clocks, requests, order[k]))
  }

  function TooMany(r: Request): Outcome {
    Failed(r.requestId, Failure(InvalidInput, "maxBatch exceeded", false))
  }

  lemma {:induction false} PositionsAre(requests: seq<Request>, actor: string)
    ensures forall i: nat :: i in Positions(requests, actor) <==> i < |requests| && ActorOf(requests[i]) == actor
  {
    if requests != [] {
      var front := requests[..|requests| - 1];
      PositionsAre(front, actor);
      assert forall i: nat :: i < |front| ==> front[i] == requests[i];
    }
  }

  lemma {:induction false} OrderInRange(requests: seq<Request>, actors: seq<string>)
    ensures InRange(requests, OrderOf(requests, actors))
  {
    if actors != [] {
      OrderInRange(requests, actors[..|actors| - 1]);
      PositionsAre(requests, actors[|actors| - 1]);
    }
  }

  function Batch(env: Env, clocks: nat -> Clock, requests: seq<Request>): seq<Outcome> {
    if |requests| > env.maxBatch then Map(TooMany, requests)
    else
      OrderInRange(requests, Actors(requests));
      Answers(env, clocks, requests, Order(requests))
  }

  /** The grouping loop: an insertion-ordered map from actor to its requests. */
  method GroupByActor(requests: seq<Request>) returns (actors: seq<string>, byActor: map<string, seq<nat>>)
    ensures actors == Actors(requests)
    ensures forall a :: a in byActor <==> a in actors
    ensures forall a :: a in byActor ==> byActor[a] == Positions(requests, a)
  {
    actors, byActor := [], map[];
    for i := 0 to |requests|
      invariant actors == Actors(requests[..i])
      invariant forall a :: a in byActor <==> a in actors
      invariant forall a :: Positions(requests[..i], a) == if a in byActor then byActor[a] else []
    {
      var actor := ActorOf(requests[i]);
      assert requests[..i + 1][..i] == requests[..i];
      if actor !in byActor {
        actors := actors + [actor];
        byActor := byActor[actor := []];
      }
      byActor := byActor[actor := byActor[actor] + [i]];
    }
    assert requests[..|requests|] == requests;
  }

  /** These are one actor's requests. */
  ghost predicate OfActor(requests: seq<Request>, items: seq<nat>, actor: string) {
    forall k :: 0 <= k < |items| ==> items[k] < |requests| && ActorOf(requests[items[k]]) == actor
  }

  ghost predicate AreAnswers(
      env: Env, clocks: nat -> Clock, requests: seq<Request>, items: seq<nat>, results: seq<Outcome>) {
    && |results| <= |items|
    && forall k :: 0 <= k < |results| ==>
         items[k] < |requests| && results[k] == AnswerTo(env, clocks, requests, items[k])
  }

  /** Every request of an actor without usable keys is refused alike. */
  method RefuseActor(
      env: Env, ghost clocks: nat -> Clock, requests: seq<Request>, actor: string, items: seq<nat>, failure: Failure)
    returns (results: seq<Outcome>)
    requires OfActor(requests, items, actor) && ResolveKeys(env, actor) == Err(failure)
    ensures |results| == |items| && AreAnswers(env, clocks, requests, items, results)
  {
    hide ResolveKeys, SignOne;
    results := [];
    for k := 0 to |items|
      invariant |results| == k && AreAnswers(env, clocks, requests, items, results)
    {
      results := results + [Failed(requests[items[k]].requestId, failure)];
    }
  }

  /** Every request of an actor with keys is signed in turn. */
  method SignActor(
      env: Env, clocks: nat -> Clock, requests: seq<Request>, actor: string, items: seq<nat>, keys: Keys)
    returns (results: seq<Outcome>)
    requires OfActor(requests, items, actor) && ResolveKeys(env, actor) == Ok(keys)
    ensures |results| == |items| && AreAnswers(env, clocks, requests, items, results)
  {
    hide ResolveKeys, SignOne;
    results := [];
    for k := 0 to |items|
      invariant |results| == k && AreAnswers(env, clocks, requests, items, results)
    {
      var r := requests[items[k]];
      results := results + [SignOne(env, clocks(items[k]), actor, keys.keyId, keys.privateKey, r)];
    }
  }

  /** One actor's requests, answered in turn. */
  method AnswerActor(env: Env, clocks: nat -> Clock, requests: seq<Request>, actor: string, items: seq<nat>)
    returns (results: seq<Outcome>)
    requires OfActor(requests, items, actor)
    ensures |results| == |items| && AreAnswers(env, clocks, requests, items, results)
  {
    var keys := ResolveKeys(env, actor);
    if keys.Err? {
      results := RefuseActor(env, clocks, requests, actor, items, keys.error);
    } else {
      results := SignActor(env, clocks, requests, actor, items, keys.value);
    }
  }

  lemma AnswersConcat(env: Env, clocks: nat -> Clock, requests: seq<Request>, a: seq<nat>, b: seq<nat>)
    requires InRange(requests, a) && InRange(requests, b)
    ensures InRange(requests, a + b)
    ensures Answers(env, clocks, requests, a + b)
         == Answers(env, clocks, requests, a) + Answers(env, clocks, requests, b)
  {
    assert forall i: nat :: i in a + b <==> i in a || i in b;
  }

  lemma PositionsOfActor(requests: seq<Request>, actor: string)
    ensures OfActor(requests, Positions(requests, actor), actor)
  {
    PositionsAre(requests, actor);
    assert forall k :: 0 <= k < |Positions(requests, actor)| ==>
             Positions(requests, actor)[k] in Positions(requests, actor);
  }

  method SignHttpRequestsBatch(env: Env, clocks: nat -> Clock, requests: seq<Request>) returns (results: seq<Outcome>)
    ensures results == Batch(env, clocks, requests)
  {
    results := [];
    if |requests| > env.maxBatch {
      for i := 0 to |requests|
        invariant |results| == i
        invariant forall k :: 0 <= k < i ==> results[k] == TooMany(requests[k])
      {
        results := results + [TooMany(requests[i])];
      }
      return;
    }
    var actors, byActor := GroupByActor(requests);
    OrderInRange(requests, actors[..0]);
    for m := 0 to |actors|
      invariant InRange(requests, OrderOf(requests, actors[..m]))
      invariant results == Answers(env, clocks, requests, OrderOf(requests, actors[..m]))
    {
      var actor := actors[m];
      PositionsAre(requests, actor);
      PositionsOfActor(requests, actor);
      var more := AnswerActor(env, clocks, requests, actor, byActor[actor]);
      AnswersConcat(env, clocks, requests, OrderOf(requests, actors[..m]), Positions(requests, actor));
      assert actors[..m + 1][..m] == actors[..m];
      assert more == Answers(env, clocks, requests, Positions(requests, actor));
      results := results + more;
    }
    assert actors[..|actors|] == actors;
  }

  // ----- the order of the answers -----

  /** Where an actor's first request stands, or the end if there is none. */
  function FirstPosition(requests: seq<Request>, actor: string): nat {
    if requests == [] then 0
    else
      var n := |requests| - 1;
      var p := FirstPosition(requests[..n], actor);
      if p < n then p else if ActorOf(requests[n]) == actor then n else n + 1
  }

  lemma {:induction false} FirstPositionIs(requests: seq<Request>, actor: string)
    ensures FirstPosition(requests, actor) <= |requests|
    ensures forall i: nat :: i < FirstPosition(requests, actor) ==> ActorOf(requests[i]) != actor
    ensures FirstPosition(requests, actor) < |requests| ==> ActorOf(requests[FirstPosition(requests, actor)]) == actor
  {
    if requests != [] {
      FirstPositionIs(requests[..|requests| - 1], actor);
    }
  }

  /** Answered before: an actor that came first comes first, and one actor's requests keep their order. */
  ghost predicate Before(requests: seq<Request>, i: nat, j: nat)
    requires i < |requests| && j < |requests|
  {
    var a, b := FirstPosition(requests, ActorOf(requests[i])), FirstPosition(requests, ActorOf(requests[j]));
    a < b || (a == b && i < j)
  }

  ghost predicate Ordered(requests: seq<Request>, order: seq<nat>) {
    InRange(requests, order)
    && forall a, b :: 0 <= a < b < |order| ==>
         order[a] in order && order[b] in order && Before(requests, order[a], order[b])
  }

  /** A stable grouping: every request once, groups by first appearance, each group in request order. */
  ghost predicate StableGrouping(requests: seq<Request>, order: seq<nat>) {
    && |order| == |requests|
    && (forall i: nat :: i in order <==> i < |requests|)
    && Ordered(requests, order)
  }

  lemma {:induction false} PositionsAscend(requests: seq<Request>, actor: string)
    ensures forall a, b :: 0 <= a < b < |Positions(requests, actor)| ==>
              Positions(requests, actor)[a] < Positions(requests, actor)[b]
  {
    if requests != [] {
      var front := requests[..|requests| - 1];
      PositionsAscend(front, actor);
      PositionsAre(front, actor);
      var at := Positions(front, actor);
      assert forall a :: 0 <= a < |at| ==> at[a] in at;
    }
  }

  lemma {:induction false} ActorsAre(requests: seq<Request>)
    ensures NoDuplicates(Actors(requests))
    ensures forall a :: a in Actors(requests) <==> FirstPosition(requests, a) < |requests|
    ensures forall m, k :: 0 <= m < k < |Actors(requests)| ==>
              FirstPosition(requests, Actors(requests)[m]) < FirstPosition(requests, Actors(requests)[k])
  {
    if requests != [] {
      var front, last := requests[..|requests| - 1], ActorOf(requests[|requests| - 1]);
      ActorsAre(front);
      AddKeepsNoDuplicates(Actors(front), last);
      var actors := Actors(front);
      forall m | 0 <= m < |actors|
        ensures FirstPosition(requests, actors[m]) == FirstPosition(front, actors[m]) < |front|
      {
        assert actors[m] in actors;
      }
      FirstPositionIs(front, last);
    }
  }

  lemma OrderedConcat(requests: seq<Request>, a: seq<nat>, b: seq<nat>)
    requires Ordered(requests, a) && Ordered(requests, b)
    requires forall x, y :: 0 <= x < |a| && 0 <= y < |b| ==> a[x] in a && b[y] in b && Before(requests, a[x], b[y])
    ensures Ordered(requests, a + b)
  {
    var c := a + b;
    forall i: nat | i in c ensures i < |requests| {
      assert i in a || i in b;
    }
    forall x, y | 0 <= x < y < |c| ensures c[x] in c && c[y] in c && Before(requests, c[x], c[y]) {
      if y < |a| {
        assert a[x] in a && a[y] in a;
      } else if x < |a| {
        assert a[x] in a && b[y - |a|] in b;
      } else {
        assert b[x - |a|] in b && b[y - |a|] in b;
      }
    }
  }

  lemma GroupOrdered(requests: seq<Request>, actor: string)
    ensures Ordered(requests, Positions(requests, actor))
  {
    PositionsAre(requests, actor);
    PositionsAscend(requests, actor);
  }

  /** The answers so far come from the actors so far. */
  lemma {:induction false} OrderHolds(requests: seq<Request>, actors: seq<string>)
    ensures forall i: nat :: i in OrderOf(requests, actors) <==> i < |requests| && ActorOf(requests[i]) in actors
  {
    if actors != [] {
      var n := |actors| - 1;
      OrderHolds(requests, actors[..n]);
      PositionsAre(requests, actors[n]);
      assert actors == actors[..n] + [actors[n]];
    }
  }

  lemma {:induction false} OrderIsOrdered(requests: seq<Request>, actors: seq<string>)
    requires forall m, k :: 0 <= m < k < |actors| ==>
               FirstPosition(requests, actors[m]) < FirstPosition(requests, actors[k])
    ensures Ordered(requests, OrderOf(requests, actors))
  {
    if actors != [] {
      var n := |actors| - 1;
      var earlier, last := OrderOf(requests, actors[..n]), Positions(requests, actors[n]);
      OrderIsOrdered(requests, actors[..n]);
      GroupOrdered(requests, actors[n]);
      OrderHolds(requests, actors[..n]);
      PositionsAre(requests, actors[n]);
      forall x, y | 0 <= x < |earlier| && 0 <= y < |last|
        ensures earlier[x] in earlier && last[y] in last && Before(requests, earlier[x], last[y])
      {
        var m :| 0 <= m < n && actors[m] == ActorOf(requests[earlier[x]]);
      }
      OrderedConcat(requests, earlier, last);
    }
  }

  lemma OrderedIsDistinct(requests: seq<Request>, order: seq<nat>)
    requires Ordered(requests, order)
    ensures NoDuplicates(order)
  {
  }

  function UpTo(n: nat): set<nat> {
    if n == 0 then {} else UpTo(n - 1) + {n - 1}
  }

  lemma {:induction false} UpToIs(n: nat)
    ensures |UpTo(n)| == n && forall i: nat :: i in UpTo(n) <==> i < n
  {
    if n > 0 {
      UpToIs(n - 1);
    }
  }

  /** The batch is answered as a stable group-by-actor permutation of the requests. */
  lemma OrderIsStableGrouping(requests: seq<Request>)
    ensures StableGrouping(requests, Order(requests))
  {
    var order := Order(requests);
    ActorsAre(requests);
    OrderIsOrdered(requests, Actors(requests));
    OrderHolds(requests, Actors(requests));
    forall i: nat | i < |requests| ensures i in order {
      FirstPositionIs(requests, ActorOf(requests[i]));
    }
    OrderedIsDistinct(requests, order);
    DistinctCount(order);
    UpToIs(|requests|);
    assert Elements(order) == UpTo(|requests|);
  }

  /** One answer per request, each carrying its request's id; an oversized batch is refused in request order. */
  lemma OneAnswerEach(env: Env, clocks: nat -> Clock, requests: seq<Request>)
    ensures var results := Batch(env, clocks, requests);
            |results| == |requests|
            && if |requests| > env.maxBatch
               then forall k :: 0 <= k < |requests| ==>
                      results[k] == Failed(requests[k].requestId, Failure(InvalidInput, "maxBatch exceeded", false))
               else StableGrouping(requests, Order(requests))
                    && forall k :: 0 <= k < |requests| ==>
                         var i := Order(requests)[k];
                         i < |requests| && results[k] == AnswerTo(env, clocks, requests, i)
                         && results[k].requestId == requests[i].requestId
  {
    hide SignOne, ResolveKeys;
    if |requests| <= env.maxBatch {
      OrderIsStableGrouping(requests);
      OrderInRange(requests, Actors(requests));
      var order := Order(requests);
      assert forall k :: 0 <= k < |order| ==> order[k] in order;
      forall k | 0 <= k < |order|
        ensures AnswerTo(env, clocks, requests, order[k]).requestId == requests[order[k]].requestId
      {
        KeepsRequestId(env, clocks, requests, order[k]);
      }
    }
  }

  lemma KeepsRequestId(env: Env, clocks: nat -> Clock, requests: seq<Request>, i: nat)
    requires i < |requests|
    ensures AnswerTo(env, clocks, requests, i).requestId == requests[i].requestId
  {
    hide ResolveKeys, Check, SigningString;
  }

  // ----- isolation between actors -----

  ghost predicate SameSigner(a: Env, b: Env) {
    && a.maxBatch == b.maxBatch && a.maxBodyBytes == b.maxBodyBytes && a.maxClockSkewSeconds == b.maxClockSkewSeconds
    && a.utf8 == b.utf8 && a.sha256Base64 == b.sha256Base64 && a.parseDate == b.parseDate && a.sign == b.sign
  }

  /** The services answer alike about every actor but one. */
  ghost predicate AgreeExcept(a: Env, b: Env, actor: string) {
    && SameSigner(a, b)
    && forall other :: other != actor ==>
         && a.isUrl(other) == b.isUrl(other) && a.isLocal(other) == b.isLocal(other)
         && a.privateKey(other) == b.privateKey(other) && a.keyId(other) == b.keyId(other)
  }

  /** The requests differ only in the contents of one actor's. */
  ghost predicate SameExcept(r: seq<Request>, q: seq<Request>, actor: string) {
    && |r| == |q|
    && forall i :: 0 <= i < |r| ==> ActorOf(r[i]) == ActorOf(q[i]) && (ActorOf(r[i]) != actor ==> r[i] == q[i])
  }

  lemma {:induction false} ActorsOnlyMatter(r: seq<Request>, q: seq<Request>)
    requires |r| == |q| && forall i :: 0 <= i < |r| ==> ActorOf(r[i]) == ActorOf(q[i])
    ensures Actors(r) == Actors(q)
    ensures forall actor :: Positions(r, actor) == Positions(q, actor)
  {
    if r != [] {
      ActorsOnlyMatter(r[..|r| - 1], q[..|q| - 1]);
    }
  }

  lemma {:induction false} OrderOnlyMatters(r: seq<Request>, q: seq<Request>, actors: seq<string>)
    requires forall actor :: Positions(r, actor) == Positions(q, actor)
    ensures OrderOf(r, actors) == OrderOf(q, actors)
  {
    if actors != [] {
      OrderOnlyMatters(r, q, actors[..|actors| - 1]);
    }
  }

  lemma SameChecks(a: Env, b: Env, clock: Clock, r: Request)
    requires SameSigner(a, b)
    ensures CheckDigest(a, r) == CheckDigest(b, r)
    ensures FreshEnough(a, clock, DateOf(clock, r)) == FreshEnough(b, clock, DateOf(clock, r))
  {
  }

  lemma SameCheck(a: Env, b: Env, clock: Clock, r: Request)
    requires SameSigner(a, b)
    ensures Check(a, clock, r) == Check(b, clock, r)
  {
    SameChecks(a, b, clock, r);
    hide AssertHost, AssertPath, AllowedMethod, ProfileNamed, BuildRequestTarget, CheckDigest, FreshEnough, DateOf,
         ContentTypeOf, SameSigner;
  }

  lemma SameTextToSign(a: Env, b: Env, clock: Clock, r: Request)
    requires SameSigner(a, b)
    ensures TextToSign(a, clock, r) == TextToSign(b, clock, r) && Check(a, clock, r) == Check(b, clock, r)
  {
    SameCheck(a, b, clock, r);
    hide Check, SigningString, ProfileNamed, SameSigner;
  }

  lemma SameAnswer(a: Env, b: Env, clock: Clock, keys: Result<Keys, Failure>, r: Request)
    requires SameSigner(a, b)
    ensures Answer(a, clock, keys, r) == Answer(b, clock, keys, r)
  {
    hide TextToSign, Check;
    SameTextToSign(a, b, clock, r);
  }

  lemma SameKeys(a: Env, b: Env, actor: string, other: string)
    requires AgreeExcept(a, b, actor) && other != actor
    ensures ResolveKeys(a, other) == ResolveKeys(b, other)
  {
  }

  /** Whatever goes wrong for one actor, its keys, locality or requests, every other actor's answers stay the same. */
  lemma OneActorCannotDisturbAnother(
      a: Env, b: Env, clocks: nat -> Clock, r: seq<Request>, q: seq<Request>, actor: string, k: nat)
    requires AgreeExcept(a, b, actor) && SameExcept(r, q, actor)
    requires |r| <= a.maxBatch && k < |r|
    ensures Order(r) == Order(q) && |Order(r)| == |r|
    ensures Order(r)[k] < |r|
    ensures ActorOf(r[Order(r)[k]]) != actor ==> Batch(a, clocks, r)[k] == Batch(b, clocks, q)[k]
  {
    hide Answer, ResolveKeys, TextToSign, Check;
    ActorsOnlyMatter(r, q);
    OrderOnlyMatters(r, q, Actors(r));
    OneAnswerEach(a, clocks, r);
    OneAnswerEach(b, clocks, q);
    var i := Order(r)[k];
    assert i in Order(r);
    if ActorOf(r[i]) != actor {
      SameKeys(a, b, actor, ActorOf(r[i]));
      SameAnswer(a, b, clocks(i), ResolveKeys(a, ActorOf(r[i])), r[i]);
    }
  }

  // ----- when a request is signed -----

  /** An optional field that is left out or empty. */
  ghost predicate Missing(value: Option<string>) {
    value == None || value == Some("")
  }

  /** The digest the request may carry: computed from a body that is not too large, or the caller's own if right. */
  ghost predicate DigestAcceptable(env: Env, r: Request) {
    && r.body.Some?
    && var bytes := env.utf8(r.body.value);
       var hash := env.sha256Base64(bytes);
       || ((Missing(r.digestMode) || r.digestMode == Some("server_compute")) && |bytes| <= env.maxBodyBytes)
       || (r.digestMode == Some("caller_provided_strict") && r.digestValue == Some("SHA-256=" + hash)
           && (Missing(r.bodyHash) || r.bodyHash == Some(hash)))
  }

  ghost function BodyDigest(env: Env, r: Request): Digest
    requires r.body.Some?
  {
    var hash := env.sha256Base64(env.utf8(r.body.value));
    Digest("SHA-256=" + hash, hash)
  }

  lemma DigestIff(env: Env, r: Request)
    ensures CheckDigest(env, r).Ok? <==> DigestAcceptable(env, r)
    ensures CheckDigest(env, r).Ok? ==>
              CheckDigest(env, r).value == BodyDigest(env, r)
  {
  }

  ghost predicate GoodHost(r: Request) {
    && r.host.Some? && r.host.value != "" && '/' !in r.host.value
    && forall c :: c in r.host.value ==> c !in WHITE_SPACE
  }

  ghost predicate GoodPath(r: Request) {
    r.path.Some? && r.path.value != "" && r.path.value[0] == '/'
  }

  /** The five methods, in either case. */
  ghost predicate GoodMethod(r: Request) {
    && r.httpMethod.Some?
    && var m := Upper(r.httpMethod.value);
       m == "GET" || m == "POST" || m == "PUT" || m == "DELETE" || m == "PATCH"
  }

  /** The date that is signed: the request's, or the clock's if it has none. */
  ghost predicate DateIs(clock: Clock, r: Request, date: string) {
    if Missing(r.date) then date == clock.httpDate else r.date == Some(date)
  }

  /** A date that parses lies within the allowed skew, either way. */
  ghost predicate GoodDate(env: Env, clock: Clock, r: Request) {
    forall date, t :: DateIs(clock, r, date) && env.parseDate(date) == Some(t) ==>
      -1000 * env.maxClockSkewSeconds <= clock.nowMs - t <= 1000 * env.maxClockSkewSeconds
  }

  ghost predicate IsPostProfile(r: Request) {
    r.profile == Some("ap_post_v1") || r.profile == Some("ap_post_v1_ct")
  }

  ghost predicate KnownProfile(r: Request) {
    r.profile == Some("ap_get_v1") || IsPostProfile(r)
  }

  ghost predicate FieldsAcceptable(env: Env, clock: Clock, r: Request) {
    && KnownProfile(r) && GoodHost(r) && GoodPath(r) && GoodMethod(r) && GoodDate(env, clock, r)
    && (IsPostProfile(r) ==> DigestAcceptable(env, r))
  }

  lemma ProfileIs(r: Request)
    ensures ProfileNamed(r.profile).Some? <==> KnownProfile(r)
    ensures KnownProfile(r) ==>
              && ProfileNamed(r.profile).value.algorithm == "rsa-sha256"
              && (ProfileNamed(r.profile).value.requireDigest <==> IsPostProfile(r))
  {
  }

  lemma HostIff(r: Request)
    ensures AssertHost(r.host) <==> GoodHost(r)
  {
    forall c ensures IsSpace(c) <==> c in WHITE_SPACE {
      SpacesAre(c);
    }
  }

  lemma MethodIff(r: Request)
    ensures AllowedMethod(NormalizeMethod(r.httpMethod)) <==> GoodMethod(r)
    ensures GoodMethod(r) ==> NormalizeMethod(r.httpMethod) == Upper(r.httpMethod.value)
  {
    assert Upper("") == "";
    hide Upper;
  }

  lemma DateIff(env: Env, clock: Clock, r: Request)
    ensures FreshEnough(env, clock, DateOf(clock, r)) <==> GoodDate(env, clock, r)
    ensures forall date :: date == DateOf(clock, r) <==> DateIs(clock, r, date)
  {
    if FreshEnough(env, clock, DateOf(clock, r)) {
      assert forall date :: DateIs(clock, r, date) ==> date == DateOf(clock, r);
    } else {
      assert DateIs(clock, r, DateOf(clock, r));
    }
  }

  /** The checks pass exactly on acceptable fields, and the digest signed is always that of the body sent. */
  lemma CheckIff(env: Env, clock: Clock, r: Request)
    ensures Check(env, clock, r).Ok? <==> FieldsAcceptable(env, clock, r)
    ensures Check(env, clock, r).Ok? ==>
              Check(env, clock, r).value.digest == if IsPostProfile(r) then Some(BodyDigest(env, r)) else None
  {
    hide AssertHost, FreshEnough, BuildRequestTarget, DigestAcceptable, CheckDigest, GoodHost, GoodMethod,
         GoodDate, AllowedMethod, NormalizeMethod, ProfileNamed, KnownProfile, IsPostProfile;
    ProfileIs(r);
    HostIff(r);
    MethodIff(r);
    DateIff(env, clock, r);
    DigestIff(env, r);
  }

  // ----- the receiver's side (section 2.3 of draft-cavage-http-signatures-12) -----

  /** The request as transmitted: header names are lower-case. */
  datatype Wire = Wire(httpMethod: string, target: string, headers: map<string, string>)

  function ReceivedLine(w: Wire, name: string): Result<string, string> {
    if name == "(request-target)" then Ok(name + ": " + (Lower(w.httpMethod) + " " + w.target))
    else if name in w.headers then Ok(name + ": " + w.headers[name])
    else Err(name)
  }

  function Receiver(w: Wire): string -> Result<string, string> {
    name => ReceivedLine(w, name)
  }

  /** Rebuild the signing string from the headers parameter and the received request. */
  function Rebuild(w: Wire, headersParameter: string): Result<string, string> {
    var lines :- Traverse(Receiver(w), Split(headersParameter, ' '));
    Ok(Join(lines, "\n"))
  }

  /** The target on the request line: the path, and the query after one question mark, if there is one. */
  ghost function WireTarget(path: string, query: Option<string>): string {
    if Missing(query) then path else if query.value[0] == '?' then path + query.value else path + "?" + query.value
  }

  /** What the sender transmits: the request line, Host, the returned Date and Digest, and its content type. */
  ghost function Transmitted(r: Request, o: Outcome, contentType: string): Wire
    requires o.Signed?
  {
    var plain := map["host" := o.host, "date" := o.date, "content-type" := contentType];
    Wire(o.httpMethod, WireTarget(o.path, r.query),
         if o.digest.Some? then plain["digest" := o.digest.value] else plain)
  }

  // ----- reading the Signature header -----

  datatype Parameter = Parameter(name: string, value: string)

  function After(s: string, n: nat): string {
    if n <= |s| then s[n..] else ""
  }

  /** `name="value"` pairs separated by commas; a value ends at the next quote. */
  function ReadParameters(text: string): seq<Parameter>
    decreases |text|
  {
    if text == "" then []
    else
      var name := TextBefore(text, '=');
      var quoted := After(text, |name| + 2);
      var value := TextBefore(quoted, '"');
      [Parameter(name, value)] + ReadParameters(After(quoted, |value| + 2))
  }

  lemma {:induction false} ValuesHoldNoQuote(text: string)
    ensures forall p :: p in ReadParameters(text) ==> '"' !in p.value
    decreases |text|
  {
    if text != "" {
      var quoted := After(text, |TextBefore(text, '=')| + 2);
      var value := TextBefore(quoted, '"');
      var tail := TextBeforeSplits(quoted, '"');
      ValuesHoldNoQuote(After(quoted, |value| + 2));
    }
  }

  lemma AfterPrefix(head: string, tail: string)
    ensures After(head + tail, |head|) == tail
  {
  }

  lemma Reassociate(a: string, b: string, c: string, d: string)
    ensures a + (b + c + d) == (a + b + c) + d
  {
  }

  /** A text is read up to a character and beyond it and the next. */
  lemma ReadsUpTo(text: string, head: string, at: char, next: string, tail: string)
    requires text == head + ([at] + next + tail)
    requires at !in head && |next| <= 1 && (next == "" ==> tail == "")
    ensures TextBefore(text, at) == head && After(text, |head| + 2) == tail
  {
    TextBeforeIs(text, head, [at] + next + tail, at);
    hide TextBefore, After;
    Reassociate(head, [at], next, tail);
    var front := head + [at] + next;
    assert |front| == |head| + 1 + |next|;
    if next == "" {
      AfterEnd(text, |head| + 2);
    } else {
      AfterPrefix(front, tail);
    }
  }

  lemma AfterEnd(s: string, n: nat)
    requires n > |s|
    ensures After(s, n) == ""
  {
  }

  /** One parameter is read off the front; `more` is a comma and the rest, or nothing. */
  lemma ParameterReads(text: string, name: string, value: string, more: string)
    requires '=' !in name && '"' !in value && (more == "" || more[0] == ',')
    requires text == name + "=\"" + value + "\"" + more
    ensures ReadParameters(text) == [Parameter(name, value)] + ReadParameters(After(more, 1))
  {
    var next := if more == "" then "" else ",";
    var rest, quoted := After(more, 1), value + "\"" + more;
    assert more == next + rest;
    hide TextBefore, After;
    assert ['='] + "\"" == "=\"" && ['"'] == "\"";
    assert text == name + (['='] + "\"" + quoted);
    ReadsUpTo(text, name, '=', "\"", quoted);
    assert quoted == value + (['"'] + next + rest);
    ReadsUpTo(quoted, value, '"', next, rest);
  }

  ghost function Parameters(keyId: string, headers: string, signature: string): seq<Parameter> {
    [Parameter("keyId", keyId), Parameter("algorithm", "rsa-sha256"), Parameter("headers", headers),
     Parameter("signature", signature)]
  }

  lemma LastParametersRead(headers: string, signature: string)
    requires '"' !in headers && '"' !in signature
    ensures ReadParameters("headers=\"" + headers + "\"" + (",signature=\"" + signature + "\""))
         == [Parameter("headers", headers), Parameter("signature", signature)]
  {
    hide ReadParameters;
    var last := "signature=\"" + signature + "\"";
    ParameterReads("headers=\"" + headers + "\"" + ("," + last), "headers", headers, "," + last);
    assert last == last + "";
    ParameterReads(last, "signature", signature, "");
    NothingReads();
    assert After("," + last, 1) == last && ",signature=\"" + signature + "\"" == "," + last;
  }

  lemma HeaderReads(keyId: string, headers: string, signature: string)
    requires '"' !in keyId && '"' !in headers && '"' !in signature
    ensures ReadParameters(SignatureHeader(keyId, "rsa-sha256", headers, signature))
         == Parameters(keyId, headers, signature)
  {
    hide ReadParameters;
    var third := "headers=\"" + headers + "\"" + (",signature=\"" + signature + "\"");
    var second := "algorithm=\"rsa-sha256\"" + ("," + third);
    LastParametersRead(headers, signature);
    ParameterReads(second, "algorithm", "rsa-sha256", "," + third);
    ParameterReads("keyId=\"" + keyId + "\"" + ("," + second), "keyId", keyId, "," + second);
    assert After("," + second, 1) == second && After("," + third, 1) == third;
    HeaderInPieces(keyId, headers, signature, third, second);
  }

  lemma Regroup(a: string, k: string, b: string, l: string, c: string, h: string, d: string, s: string, q: string)
    ensures a + k + (q + "," + b) + l + (q + "," + c) + h + (q + "," + d) + s + q
         == a + k + q + ("," + (b + l + q + ("," + (c + h + q + ("," + d + s + q)))))
  {
  }

  lemma HeaderInPieces(keyId: string, headers: string, signature: string, third: string, second: string)
    requires third == "headers=\"" + headers + "\"" + (",signature=\"" + signature + "\"")
    requires second == "algorithm=\"rsa-sha256\"" + ("," + third)
    ensures SignatureHeader(keyId, "rsa-sha256", headers, signature) == "keyId=\"" + keyId + "\"" + ("," + second)
  {
    var a, b, c, d, q, l := "keyId=\"", "algorithm=\"", "headers=\"", "signature=\"", "\"", "rsa-sha256";
    Regroup(a, keyId, b, l, c, headers, d, signature, q);
    assert "\",algorithm=\"" == q + "," + b && "\",headers=\"" == q + "," + c && "\",signature=\"" == q + "," + d;
    assert "algorithm=\"rsa-sha256\"" == b + l + q && ",signature=\"" == "," + d;
  }

  lemma NothingReads()
    ensures ReadParameters("") == []
  {
  }

  /** The header reads back as its four parameters if and only if neither key id nor signature holds a quote. */
  lemma HeaderReadsIff(keyId: string, headers: string, signature: string)
    requires '"' !in headers
    ensures ReadParameters(SignatureHeader(keyId, "rsa-sha256", headers, signature))
         == Parameters(keyId, headers, signature)
       <==> '"' !in keyId && '"' !in signature
  {
    hide ReadParameters, SignatureHeader;
    ValuesHoldNoQuote(SignatureHeader(keyId, "rsa-sha256", headers, signature));
    if '"' !in keyId && '"' !in signature {
      HeaderReads(keyId, headers, signature);
    }
    var ps := Parameters(keyId, headers, signature);
    assert ps[0] in ps && ps[3] in ps;
  }

  /** The headers parameter of each profile. */
  ghost predicate CoveredHeaders(profile: Option<string>, headers: string) {
    || (profile == Some("ap_get_v1") && headers == "(request-target) host date")
    || (profile == Some("ap_post_v1") && headers == "(request-target) host date digest")
    || (profile == Some("ap_post_v1_ct") && headers == "(request-target) host date digest content-type")
  }

  lemma JoinMore(first: string, rest: seq<string>)
    requires rest != []
    ensures Join([first] + rest, " ") == first + " " + Join(rest, " ")
  {
    assert ([first] + rest)[1..] == rest;
  }

  lemma JoinThree(a: string, b: string, c: string)
    ensures Join([a, b, c], " ") == a + " " + b + " " + c
  {
    JoinMore(b, [c]);
    JoinMore(a, [b, c]);
    assert [b] + [c] == [b, c] && [a] + [b, c] == [a, b, c] && Join([c], " ") == c;
  }

  lemma JoinedHeaders()
    ensures Join(GET_HEADERS, " ") == "(request-target) host date"
    ensures Join(POST_HEADERS, " ") == "(request-target) host date digest"
    ensures Join(POST_CT_HEADERS, " ") == "(request-target) host date digest content-type"
  {
    hide Join;
    JoinThree("(request-target)", "host", "date");
    JoinThree("host", "date", "digest");
    JoinMore("(request-target)", ["host", "date", "digest"]);
    assert POST_HEADERS == ["(request-target)"] + ["host", "date", "digest"];
    JoinThree("date", "digest", "content-type");
    JoinMore("host", ["date", "digest", "content-type"]);
    assert ["host", "date", "digest", "content-type"] == ["host"] + ["date", "digest", "content-type"];
    JoinMore("(request-target)", ["host", "date", "digest", "content-type"]);
    assert POST_CT_HEADERS == ["(request-target)"] + ["host", "date", "digest", "content-type"];
  }

  /** A character of joined texts is one of theirs, or of the separator. */
  lemma {:induction false} JoinHolds(values: seq<string>, c: char)
    ensures c in Join(values, " ") ==> c == ' ' || exists i :: 0 <= i < |values| && c in values[i]
  {
    if |values| > 1 && c in Join(values, " ") {
      JoinHolds(values[1..], c);
      if c != ' ' && c !in values[0] {
        var i :| 0 <= i < |values[1..]| && c in values[1..][i];
        assert c in values[i + 1];
      }
    }
  }

  lemma CoveredAre(r: Request)
    requires ProfileNamed(r.profile).Some?
    ensures CoveredHeaders(r.profile, Join(ProfileNamed(r.profile).value.signedHeaders, " "))
    ensures '"' !in Join(ProfileNamed(r.profile).value.signedHeaders, " ")
  {
    hide Join;
    JoinedHeaders();
    var headers := ProfileNamed(r.profile).value.signedHeaders;
    JoinHolds(headers, '"');
    forall h | h in headers ensures '"' !in h {
      PlainName(h);
    }
  }

  lemma PlainName(h: string)
    requires h in POST_CT_HEADERS
    ensures ' ' !in h && '"' !in h && Lower(h) == h
  {
    if h == "(request-target)" {
      assert h[0] == '(';
    } else if h == "content-type" {
      assert h[0] == 'c';
    }
  }

  lemma NoSpace(headers: seq<string>)
    requires headers == GET_HEADERS || headers == POST_HEADERS || headers == POST_CT_HEADERS
    ensures forall h :: h in headers ==> ' ' !in h && Lower(h) == h
  {
    forall h | h in headers ensures ' ' !in h && Lower(h) == h {
      PlainName(h);
    }
  }

  lemma HeadersParameter(r: Request)
    requires ProfileNamed(r.profile).Some?
    ensures var headers := ProfileNamed(r.profile).value.signedHeaders;
            Split(Join(headers, " "), ' ') == headers && forall h :: h in headers ==> Lower(h) == h
  {
    var headers := ProfileNamed(r.profile).value.signedHeaders;
    NoSpace(headers);
    SplitOfJoin(headers, ' ');
    assert [' '] == " ";
  }

  lemma CheckedParts(env: Env, clock: Clock, r: Request)
    requires Check(env, clock, r).Ok?
    ensures var parts := Check(env, clock, r).value;
            && ProfileNamed(r.profile).Some? && r.path.Some? && r.host.Some?
            && parts.requestTarget == BuildRequestTarget(NormalizeMethod(r.httpMethod), r.path.value, r.query)
            && parts.contentType == ContentTypeOf(r)
            && parts.digest.Some? == ProfileNamed(r.profile).value.requireDigest
  {
    hide FreshEnough, BuildRequestTarget, CheckDigest;
  }

  lemma TargetIsSent(httpMethod: string, path: string, query: Option<string>)
    ensures BuildRequestTarget(httpMethod, path, query) == Lower(httpMethod) + " " + WireTarget(path, query)
  {
  }

  /** A covered header reads the same on the wire as in the text that was signed. */
  lemma SameLine(r: Request, actorUri: string, keyId: string, parts: Parts, signature: string, ct: string, h: string)
    requires ProfileNamed(r.profile).Some? && r.path.Some? && Lower(h) == h && h in POST_HEADERS
    requires parts.requestTarget == BuildRequestTarget(NormalizeMethod(r.httpMethod), r.path.value, r.query)
    requires h == "digest" ==> parts.digest.Some?
    ensures ReceivedLine(Transmitted(r, SignedWith(r, actorUri, keyId, parts, signature), ct), h) == LineOf(parts, h)
  {
    hide Lower, BuildRequestTarget, WireTarget, SignatureHeader, Join;
    TargetIsSent(NormalizeMethod(r.httpMethod), r.path.value, r.query);
  }

  lemma ContentTypeLine(r: Request, actorUri: string, keyId: string, parts: Parts, signature: string, ct: string)
    requires ProfileNamed(r.profile).Some? && r.path.Some?
    ensures var o := SignedWith(r, actorUri, keyId, parts, signature);
            ReceivedLine(Transmitted(r, o, ct), "content-type") == Ok("content-type" + ": " + ct)
    ensures LineOf(parts, "content-type") == Ok("content-type" + ": " + parts.contentType)
  {
    assert Lower("content-type") == "content-type";
  }

  /** The text signed under some parts, and the receiver's rebuilding of it, for a profile without content-type. */
  lemma RebuildsPlain(r: Request, actorUri: string, keyId: string, parts: Parts, signature: string, ct: string)
    requires ProfileNamed(r.profile).Some? && r.path.Some?
    requires ProfileNamed(r.profile).value.signedHeaders != POST_CT_HEADERS
    requires parts.requestTarget == BuildRequestTarget(NormalizeMethod(r.httpMethod), r.path.value, r.query)
    requires parts.digest.Some? == ProfileNamed(r.profile).value.requireDigest
    ensures var headers := ProfileNamed(r.profile).value.signedHeaders;
            Rebuild(Transmitted(r, SignedWith(r, actorUri, keyId, parts, signature), ct), Join(headers, " "))
            == SigningString(parts, headers)
  {
    hide Lower, BuildRequestTarget, SignatureHeader, Join, SignedWith, Transmitted, ReceivedLine, LineOf, Split,
         Traverse;
    var headers := ProfileNamed(r.profile).value.signedHeaders;
    var w := Transmitted(r, SignedWith(r, actorUri, keyId, parts, signature), ct);
    HeadersParameter(r);
    forall i | 0 <= i < |headers| ensures Receiver(w)(headers[i]) == Liner(parts)(headers[i]) {
      assert headers[i] in headers && headers[i] in POST_HEADERS;
      SameLine(r, actorUri, keyId, parts, signature, ct, headers[i]);
    }
    TraverseAlike(Receiver(w), Liner(parts), headers);
  }

  /** With content-type covered, the two texts agree exactly when the content type sent is the one signed. */
  lemma RebuildsWithContentType(
      r: Request, actorUri: string, keyId: string, parts: Parts, signature: string, ct: string)
    requires ProfileNamed(r.profile).Some? && r.path.Some?
    requires ProfileNamed(r.profile).value.signedHeaders == POST_CT_HEADERS && parts.digest.Some?
    requires parts.requestTarget == BuildRequestTarget(NormalizeMethod(r.httpMethod), r.path.value, r.query)
    ensures Rebuild(Transmitted(r, SignedWith(r, actorUri, keyId, parts, signature), ct), Join(POST_CT_HEADERS, " "))
         == SigningString(parts, POST_CT_HEADERS)
       <==> ct == parts.contentType
  {
    hide Lower, BuildRequestTarget, SignatureHeader, Join, SignedWith, Transmitted, ReceivedLine, LineOf, Split,
         Traverse;
    var headers := POST_CT_HEADERS;
    var w := Transmitted(r, SignedWith(r, actorUri, keyId, parts, signature), ct);
    HeadersParameter(r);
    forall i | 0 <= i < 4 ensures ReceivedLine(w, headers[i]) == LineOf(parts, headers[i]) {
      assert headers[i] in headers && headers[i] in POST_HEADERS;
      SameLine(r, actorUri, keyId, parts, signature, ct, headers[i]);
    }
    ContentTypeLine(r, actorUri, keyId, parts, signature, ct);
    FourLines(w, parts, ct);
  }

  lemma EveryValue(parts: Parts, h: string)
    requires h in POST_HEADERS && Lower(h) == h
    ensures LineOf(parts, h).Ok?
  {
    hide Lower;
  }

  lemma FourLines(w: Wire, parts: Parts, ct: string)
    requires forall i :: 0 <= i < 4 ==> ReceivedLine(w, POST_CT_HEADERS[i]) == LineOf(parts, POST_CT_HEADERS[i])
    requires ReceivedLine(w, "content-type") == Ok("content-type" + ": " + ct)
    requires LineOf(parts, "content-type") == Ok("content-type" + ": " + parts.contentType)
    ensures var rebuilt := Traverse(Receiver(w), POST_CT_HEADERS);
            var signed := Traverse(Liner(parts), POST_CT_HEADERS);
            rebuilt.Ok? && signed.Ok?
            && (Join(rebuilt.value, "\n") == Join(signed.value, "\n") <==> ct == parts.contentType)
  {
    hide Lower, ReceivedLine, LineOf, Traverse, Join;
    var headers := POST_CT_HEADERS;
    NoSpace(headers);
    forall i | 0 <= i < 4 ensures LineOf(parts, headers[i]).Ok? {
      assert headers[i] in headers && headers[i] in POST_HEADERS;
      EveryValue(parts, headers[i]);
    }
    var front := seq(4, i requires 0 <= i < 4 => LineOf(parts, headers[i]).value);
    var received, sent := "content-type" + ": " + ct, "content-type" + ": " + parts.contentType;
    TraverseIs(Receiver(w), headers, front + [received]);
    TraverseIs(Liner(parts), headers, front + [sent]);
    if Join(front + [received], "\n") == Join(front + [sent], "\n") {
      JoinLast(front, received, sent, "\n");
      assert received[|"content-type" + ": "|..] == ct && sent[|"content-type" + ": "|..] == parts.contentType;
    }
  }

  /** The answer says what was signed: the request's own method, path and host, the date and the body's digest. */
  ghost predicate AnswersFor(env: Env, clock: Clock, r: Request, o: Outcome) {
    && o.Signed? && KnownProfile(r) && GoodMethod(r) && GoodPath(r) && GoodHost(r)
    && o.requestId == r.requestId && Some(o.actorUri) == r.actorUri && o.profile == r.profile
    && o.httpMethod == Upper(r.httpMethod.value) && Some(o.path) == r.path && Some(o.host) == r.host
    && DateIs(clock, r, o.date)
    && (if IsPostProfile(r)
        then r.body.Some? && o.digest == Some(BodyDigest(env, r).text) && o.bodySha256 == Some(BodyDigest(env, r).hash)
        else o.digest == None && o.bodySha256 == None)
    && Ok(o.keyId) == env.keyId(o.actorUri) && o.algorithm == "rsa-sha256"
    && CoveredHeaders(r.profile, o.signedHeaders)
  }

  /** The content type that is signed: the request's, or the default if it has none. */
  ghost predicate ContentTypeIs(r: Request, contentType: string) {
    if Missing(r.contentType) then contentType == "application/activity+json" else r.contentType == Some(contentType)
  }

  /** An answer with a signature was made with the actor's own keys, from checked parts. */
  lemma AnsweredWith(env: Env, clock: Clock, r: Request)
    requires Answer(env, clock, ResolveKeys(env, ActorOf(r)), r).Signed?
    ensures ResolveKeys(env, ActorOf(r)).Ok? && Check(env, clock, r).Ok? && TextToSign(env, clock, r).Ok?
    ensures var keys, text := ResolveKeys(env, ActorOf(r)).value, TextToSign(env, clock, r).value;
            && r.actorUri == Some(ActorOf(r)) && env.isLocal(ActorOf(r)) == Some(true)
            && env.privateKey(ActorOf(r)) == Ok(Some(keys.privateKey)) && env.keyId(ActorOf(r)) == Ok(keys.keyId)
            && env.sign(keys.privateKey, text).Ok? && ProfileNamed(r.profile).Some? && r.path.Some?
            && Answer(env, clock, ResolveKeys(env, ActorOf(r)), r)
               == SignedWith(
                    r, ActorOf(r), keys.keyId, Check(env, clock, r).value, env.sign(keys.privateKey, text).value)
  {
    hide Check, SigningString, SignedWith;
    CheckedParts(env, clock, r);
  }

  /** The parts are the request's own fields. */
  lemma PartsAre(env: Env, clock: Clock, r: Request)
    requires Check(env, clock, r).Ok?
    ensures r.host == Some(Check(env, clock, r).value.host)
    ensures DateIs(clock, r, Check(env, clock, r).value.date)
  {
    hide AssertPath, FreshEnough, BuildRequestTarget, CheckDigest, AllowedMethod, NormalizeMethod, ProfileNamed;
  }

  lemma SignedFields(env: Env, clock: Clock, r: Request)
    requires Answer(env, clock, ResolveKeys(env, ActorOf(r)), r).Signed?
    ensures AnswersFor(env, clock, r, Answer(env, clock, ResolveKeys(env, ActorOf(r)), r))
  {
    hide Answer, ResolveKeys, Check, TextToSign, Join, SignatureHeader, GoodDate, FreshEnough, GoodHost,
         GoodMethod, DateIs, NormalizeMethod, ProfileNamed, BodyDigest;
    AnsweredWith(env, clock, r);
    PartsAre(env, clock, r);
    CheckIff(env, clock, r);
    ProfileIs(r);
    MethodIff(r);
    CoveredAre(r);
  }

  /**
   The authority boundary and the point of a signature. An answered request was signed with its own local actor's key,
   and the answer says what was signed. The Signature header reads as the actor's key id, the algorithm, the profile's
   headers and the signature if and only if neither key id nor signature holds a quote. Then the text a receiver
   rebuilds from the headers it reads there and from what is transmitted is exactly the text signed; under the profile
   that covers content-type, exactly when the content type sent is the request's own or the default.
   */
  lemma ReceiverRebuildsTheText(env: Env, clocks: nat -> Clock, requests: seq<Request>, i: nat, ct: string)
    requires i < |requests| && AnswerTo(env, clocks, requests, i).Signed?
    ensures var r, o := requests[i], AnswerTo(env, clocks, requests, i);
            && AnswersFor(env, clocks(i), r, o) && env.isLocal(o.actorUri) == Some(true)
            && env.privateKey(o.actorUri).Ok? && env.privateKey(o.actorUri).value.Some?
            && var text, read := TextToSign(env, clocks(i), r), ReadParameters(o.signatureHeader);
               && text.Ok? && env.sign(env.privateKey(o.actorUri).value.value, text.value).Ok?
               && var signature := env.sign(env.privateKey(o.actorUri).value.value, text.value).value;
                  && (read == Parameters(o.keyId, o.signedHeaders, signature) <==> '"' !in o.keyId && '"' !in signature)
                  && ('"' !in o.keyId && '"' !in signature ==>
                        (Rebuild(Transmitted(r, o, ct), read[2].value) == Ok(text.value)
                         <==> (r.profile == Some("ap_post_v1_ct") ==> ContentTypeIs(r, ct))))
  {
    hide Answer, ResolveKeys, TextToSign, Check, SigningString, Rebuild, Transmitted, Join, SignatureHeader,
         ReadParameters, AnswersFor, ProfileNamed;
    var r, clock := requests[i], clocks(i);
    SignedFields(env, clock, r);
    AnsweredWith(env, clock, r);
    CheckedParts(env, clock, r);
    CoveredAre(r);
    SignedProfile(r);
    var keys, text := ResolveKeys(env, ActorOf(r)).value, TextToSign(env, clock, r).value;
    var parts, signature := Check(env, clock, r).value, env.sign(keys.privateKey, text).value;
    HeaderReadsIff(keys.keyId, Join(ProfileNamed(r.profile).value.signedHeaders, " "), signature);
    TextIsBuilt(env, clock, r);
    if r.profile == Some("ap_post_v1_ct") {
      RebuildsWithContentType(r, ActorOf(r), keys.keyId, parts, signature, ct);
    } else {
      RebuildsPlain(r, ActorOf(r), keys.keyId, parts, signature, ct);
    }
  }

  lemma SignedProfile(r: Request)
    requires ProfileNamed(r.profile).Some?
    ensures ProfileNamed(r.profile).value.algorithm == "rsa-sha256"
    ensures if r.profile == Some("ap_post_v1_ct")
            then ProfileNamed(r.profile).value.signedHeaders == POST_CT_HEADERS
                 && ProfileNamed(r.profile).value.requireDigest
            else ProfileNamed(r.profile).value.signedHeaders != POST_CT_HEADERS
    ensures ContentTypeIs(r, ContentTypeOf(r)) && forall ct :: ContentTypeIs(r, ct) ==> ct == ContentTypeOf(r)
  {
    assert |GET_HEADERS| < |POST_HEADERS| < |POST_CT_HEADERS|;
  }

  lemma TextIsBuilt(env: Env, clock: Clock, r: Request)
    requires TextToSign(env, clock, r).Ok? && Check(env, clock, r).Ok? && ProfileNamed(r.profile).Some?
    ensures SigningString(Check(env, clock, r).value, ProfileNamed(r.profile).value.signedHeaders)
         == Ok(TextToSign(env, clock, r).value)
  {
    hide Check, SigningString, ProfileNamed;
  }

  lemma ProfileTextIsBuilt(parts: Parts, profile: Option<string>)
    requires ProfileNamed(profile).Some?
    ensures SigningString(parts, ProfileNamed(profile).value.signedHeaders).Ok?
  {
    hide Lower, Join, LineOf;
    var headers := ProfileNamed(profile).value.signedHeaders;
    NoSpace(headers);
    if SigningString(parts, headers).Err? {
      var i := TraverseFails(Liner(parts), headers);
      assert headers[i] in headers;
      CoveredLine(parts, headers[i]);
    }
  }

  lemma CoveredLine(parts: Parts, h: string)
    requires h in POST_CT_HEADERS && Lower(h) == h
    ensures LineOf(parts, h).Ok?
  {
    hide Lower;
  }

  /** A request of a usable actor is signed exactly when its fields are acceptable and the key signs the text. */
  lemma SignedIff(env: Env, clock: Clock, actorUri: string, keyId: string, privateKey: string, r: Request)
    ensures TextToSign(env, clock, r).Ok? <==> FieldsAcceptable(env, clock, r)
    ensures SignOne(env, clock, actorUri, keyId, privateKey, r).Signed?
       <==> FieldsAcceptable(env, clock, r) && env.sign(privateKey, TextToSign(env, clock, r).value).Ok?
  {
    hide Check, SigningString, FieldsAcceptable, ProfileNamed;
    CheckIff(env, clock, r);
    if Check(env, clock, r).Ok? {
      CheckedParts(env, clock, r);
      ProfileTextIsBuilt(Check(env, clock, r).value, r.profile);
    }
  }

  /** The actor is a local one with a private key and a key id. */
  ghost predicate UsableActor(env: Env, r: Request) {
    && r.actorUri.Some? && r.actorUri.value != ""
    && env.isUrl(r.actorUri.value) && env.isLocal(r.actorUri.value) == Some(true)
    && env.privateKey(r.actorUri.value).Ok? && !Missing(env.privateKey(r.actorUri.value).value)
    && env.keyId(r.actorUri.value).Ok?
  }

  /** The actor's own key signs the text of its request. */
  ghost predicate OwnKeySigns(env: Env, clock: Clock, r: Request) {
    && r.actorUri.Some?
    && var key, text := env.privateKey(r.actorUri.value), TextToSign(env, clock, r);
       key.Ok? && key.value.Some? && text.Ok? && env.sign(key.value.value, text.value).Ok?
  }

  /**
   Over the whole batch: a request is answered with a signature exactly when its actor is local and has keys, its
   fields are acceptable, and the actor's own key signs its text; nothing else in the batch has a say.
   */
  lemma SignedExactlyWhen(env: Env, clocks: nat -> Clock, requests: seq<Request>, k: nat)
    requires |requests| <= env.maxBatch && k < |requests|
    ensures |Order(requests)| == |requests| == |Batch(env, clocks, requests)| && Order(requests)[k] < |requests|
    ensures var r, clock := requests[Order(requests)[k]], clocks(Order(requests)[k]);
            Batch(env, clocks, requests)[k].Signed? <==>
              UsableActor(env, r) && FieldsAcceptable(env, clock, r) && OwnKeySigns(env, clock, r)
  {
    hide Batch, Answer, UsableActor, OwnKeySigns, FieldsAcceptable;
    OneAnswerEach(env, clocks, requests);
    var i := Order(requests)[k];
    assert i in Order(requests);
    AnswerSignedIff(env, clocks(i), requests[i]);
  }

  lemma AnswerSignedIff(env: Env, clock: Clock, r: Request)
    ensures Answer(env, clock, ResolveKeys(env, ActorOf(r)), r).Signed? <==>
              UsableActor(env, r) && FieldsAcceptable(env, clock, r) && OwnKeySigns(env, clock, r)
  {
    hide Check, TextToSign, FieldsAcceptable, SignedWith;
    TextIff(env, clock, r);
    if ResolveKeys(env, ActorOf(r)).Ok? {
      var keys := ResolveKeys(env, ActorOf(r)).value;
      SignedIff(env, clock, ActorOf(r), keys.keyId, keys.privateKey, r);
    }
  }

  lemma TextIff(env: Env, clock: Clock, r: Request)
    ensures TextToSign(env, clock, r).Ok? <==> FieldsAcceptable(env, clock, r)
  {
    hide TextToSign, FieldsAcceptable;
    SignedIff(env, clock, "", "", "", r);
  }

  // ----- why a request is refused -----

  /** An error's own message, or a stock one if that is empty. */
  ghost function Told(message: string, fallback: string): string {
    if message == "" then fallback else message
  }

  ghost function WhyDigestRefused(env: Env, r: Request): Option<Failure> {
    if DigestAcceptable(env, r) then None
    else if Missing(r.digestMode) || r.digestMode == Some("server_compute") then
      if r.body == None then Some(Failure(InvalidInput, "body.bytes required for POST profile", false))
      else Some(Failure(BodyTooLarge, "body too large", false))
    else if r.digestMode == Some("caller_provided_strict") then
      if Missing(r.digestValue) || r.body == None then
        Some(Failure(InvalidInput, "digest.value and body.bytes required for caller_provided_strict", false))
      else if !Missing(r.bodyHash) && r.bodyHash != Some(env.sha256Base64(env.utf8(r.body.value))) then
        Some(Failure(DigestMismatch, "provided bodyHashSha256Base64 does not match body", false))
      else Some(Failure(DigestMismatch, "provided digest does not match computed digest", false))
    else Some(Failure(InvalidInput, "unknown digest.mode", false))
  }

  /** The first thing wrong with a request's fields. */
  ghost function WhyFieldsRefused(env: Env, clock: Clock, r: Request): Option<Failure> {
    if !KnownProfile(r) then Some(Failure(ProfileNotAllowed, "unknown profile", false))
    else if !GoodHost(r) then Some(Failure(InvalidInput, "target.host invalid", false))
    else if !GoodPath(r) then Some(Failure(InvalidInput, "target.path invalid", false))
    else if !GoodMethod(r) then Some(Failure(InvalidInput, "method invalid", false))
    else if !GoodDate(env, clock, r) then Some(Failure(InvalidInput, "date skew too large", false))
    else if IsPostProfile(r) then WhyDigestRefused(env, r)
    else None
  }

  /** The first thing wrong with a request's actor. */
  ghost function WhyActorRefused(env: Env, r: Request): Option<Failure> {
    if Missing(r.actorUri) then Some(Failure(InvalidInput, "actorUri missing", false))
    else if !env.isUrl(r.actorUri.value) then Some(Failure(InvalidInput, "actorUri not a URL", false))
    else if env.isLocal(r.actorUri.value) == None then
      Some(Failure(ActorNotLocal, "locality verification unavailable", false))
    else if env.isLocal(r.actorUri.value) == Some(false) then Some(Failure(ActorNotLocal, "actorUri not local", false))
    else
      match (env.privateKey(r.actorUri.value), env.keyId(r.actorUri.value))
      case (Err(message), _) => Some(Failure(KeyUnavailable, Told(message, "key lookup failed"), true))
      case (Ok(key), id) =>
        if Missing(key) then Some(Failure(KeyUnavailable, "privateKey missing", true))
        else if id.Err? then Some(Failure(KeyUnavailable, Told(id.error, "keyId lookup failed"), true))
        else None
  }

  /** The answer to the request: the first thing wrong with its actor, its fields, or the signing itself. */
  ghost predicate AnsweredRightly(env: Env, clock: Clock, r: Request, o: Outcome) {
    if WhyActorRefused(env, r).Some? then o == Failed(r.requestId, WhyActorRefused(env, r).value)
    else if WhyFieldsRefused(env, clock, r).Some? then o == Failed(r.requestId, WhyFieldsRefused(env, clock, r).value)
    else
      && TextToSign(env, clock, r).Ok? && r.actorUri.Some?
      && match env.privateKey(r.actorUri.value)
         case Ok(Some(key)) =>
           (match env.sign(key, TextToSign(env, clock, r).value)
            case Err(message) => o == Failed(r.requestId, Failure(InternalError, Told(message, "signing failed"), true))
            case Ok(_) => AnswersFor(env, clock, r, o))
         case _ => false
  }

  lemma DigestRefusal(env: Env, r: Request)
    ensures WhyDigestRefused(env, r)
         == if CheckDigest(env, r).Ok? then None else Some(CheckDigest(env, r).error)
  {
    hide DigestAcceptable, CheckDigest;
    DigestIff(env, r);
    if r.digestMode == Some("caller_provided_strict") && !Missing(r.digestValue) && r.body.Some? {
      StrictDigest(env, r);
    } else {
      OtherDigest(env, r);
    }
  }

  lemma OtherDigest(env: Env, r: Request)
    requires r.digestMode != Some("caller_provided_strict") || Missing(r.digestValue) || r.body == None
    ensures CheckDigest(env, r).Err? ==>
              CheckDigest(env, r).error
              == if Missing(r.digestMode) || r.digestMode == Some("server_compute") then
                   if r.body == None then Failure(InvalidInput, "body.bytes required for POST profile", false)
                   else Failure(BodyTooLarge, "body too large", false)
                 else if r.digestMode == Some("caller_provided_strict") then
                   Failure(InvalidInput, "digest.value and body.bytes required for caller_provided_strict", false)
                 else Failure(InvalidInput, "unknown digest.mode", false)
  {
  }

  lemma StrictDigest(env: Env, r: Request)
    requires r.digestMode == Some("caller_provided_strict") && !Missing(r.digestValue) && r.body.Some?
    ensures var hash := env.sha256Base64(env.utf8(r.body.value));
            CheckDigest(env, r)
            == if !Missing(r.bodyHash) && r.bodyHash != Some(hash) then
                 Err(Failure(DigestMismatch, "provided bodyHashSha256Base64 does not match body", false))
               else if r.digestValue != Some("SHA-256=" + hash) then
                 Err(Failure(DigestMismatch, "provided digest does not match computed digest", false))
               else Ok(BodyDigest(env, r))
  {
  }

  lemma FieldsRefusal(env: Env, clock: Clock, r: Request)
    ensures WhyFieldsRefused(env, clock, r)
         == if TextToSign(env, clock, r).Ok? then None else Some(TextToSign(env, clock, r).error)
  {
    TextIff(env, clock, r);
    ProfileIs(r);
    HostIff(r);
    MethodIff(r);
    DateIff(env, clock, r);
    DigestRefusal(env, r);
    DigestIff(env, r);
    hide AssertHost, FreshEnough, BuildRequestTarget, DigestAcceptable, CheckDigest, GoodHost, GoodMethod, GoodDate,
         AllowedMethod, NormalizeMethod, ProfileNamed, KnownProfile, IsPostProfile, WhyDigestRefused, SigningString;
  }

  lemma ActorRefusal(env: Env, r: Request)
    ensures WhyActorRefused(env, r)
         == if ResolveKeys(env, ActorOf(r)).Ok? then None else Some(ResolveKeys(env, ActorOf(r)).error)
    ensures ResolveKeys(env, ActorOf(r)).Ok? ==>
              r.actorUri == Some(ActorOf(r))
              && env.privateKey(ActorOf(r)) == Ok(Some(ResolveKeys(env, ActorOf(r)).value.privateKey))
  {
  }

  /** Over the whole batch: each refusal names the first thing wrong with the request. */
  lemma RefusedBecause(env: Env, clocks: nat -> Clock, requests: seq<Request>, k: nat)
    requires |requests| <= env.maxBatch && k < |requests|
    ensures |Order(requests)| == |requests| == |Batch(env, clocks, requests)| && Order(requests)[k] < |requests|
    ensures AnsweredRightly(
              env, clocks(Order(requests)[k]), requests[Order(requests)[k]], Batch(env, clocks, requests)[k])
  {
    hide Batch, Answer, AnsweredRightly, ResolveKeys;
    OneAnswerEach(env, clocks, requests);
    var i := Order(requests)[k];
    assert i in Order(requests);
    AnswerIsRight(env, clocks(i), requests[i]);
  }

  lemma AnswerIsRight(env: Env, clock: Clock, r: Request)
    ensures AnsweredRightly(env, clock, r, Answer(env, clock, ResolveKeys(env, ActorOf(r)), r))
  {
    hide Check, TextToSign, WhyFieldsRefused, WhyActorRefused, SignedWith, AnswersFor, ResolveKeys;
    ActorRefusal(env, r);
    FieldsRefusal(env, clock, r);
    if Answer(env, clock, ResolveKeys(env, ActorOf(r)), r).Signed? {
      SignedFields(env, clock, r);
    }
  }

  // ----- reading the signed text back -----

  datatype Header = Header(name: string, value: string)

  /** `name: value`, with one colon and one space between. */
  function ReadLine(line: string): Header {
    var name := TextBefore(line, ':');
    Header(name, if |name| + 2 <= |line| then line[|name| + 2..] else "")
  }

  function ReadBack(text: string): seq<Header> {
    Map(ReadLine, Split(text, '\n'))
  }

  lemma LineReadsBack(name: string, value: string)
    requires ':' !in name
    ensures ReadLine(name + ": " + value) == Header(name, value)
  {
    TextBeforeIs(name + ": " + value, name, ": " + value, ':');
  }

  lemma KnownName(parts: Parts, header: string)
    requires ValueOf(parts, header).Ok?
    ensures ':' !in Lower(header) && '\n' !in Lower(header)
  {
    hide Lower;
  }

  /** What each covered header contributes. */
  ghost predicate Covers(parts: Parts, headers: seq<string>, read: seq<Header>) {
    |read| == |headers|
    && forall i :: 0 <= i < |headers| ==>
         read[i].name == Lower(headers[i]) && ValueOf(parts, headers[i]) == Ok(read[i].value)
  }

  ghost predicate NoNewline(parts: Parts, headers: seq<string>) {
    forall i :: 0 <= i < |headers| ==> ValueOf(parts, headers[i]).Ok? && '\n' !in ValueOf(parts, headers[i]).value
  }

  lemma NewlineInLine(parts: Parts, header: string)
    requires ValueOf(parts, header).Ok?
    ensures LineOf(parts, header).Ok?
    ensures '\n' in LineOf(parts, header).value <==> '\n' in ValueOf(parts, header).value
    ensures ReadLine(LineOf(parts, header).value) == Header(Lower(header), ValueOf(parts, header).value)
  {
    hide Lower, ValueOf;
    KnownName(parts, header);
    LineReadsBack(Lower(header), ValueOf(parts, header).value);
  }

  lemma LinesAre(parts: Parts, headers: seq<string>) returns (lines: seq<string>)
    requires SigningString(parts, headers).Ok?
    ensures SigningString(parts, headers) == Ok(Join(lines, "\n")) && |lines| == |headers|
    ensures forall i :: 0 <= i < |headers| ==>
              && ValueOf(parts, headers[i]).Ok?
              && ('\n' in lines[i] <==> '\n' in ValueOf(parts, headers[i]).value)
              && ReadLine(lines[i]) == Header(Lower(headers[i]), ValueOf(parts, headers[i]).value)
  {
    hide Lower, ValueOf, ReadLine, Join, Traverse;
    lines := Traverse(Liner(parts), headers).value;
    TraverseIs(Liner(parts), headers, lines);
    forall i | 0 <= i < |headers|
      ensures ValueOf(parts, headers[i]).Ok?
      ensures '\n' in lines[i] <==> '\n' in ValueOf(parts, headers[i]).value
      ensures ReadLine(lines[i]) == Header(Lower(headers[i]), ValueOf(parts, headers[i]).value)
    {
      assert LineOf(parts, headers[i]) == Ok(lines[i]);
      NewlineInLine(parts, headers[i]);
    }
  }

  /** The signed text reads back as exactly the covered headers, in order, if and only if no value holds a newline. */
  lemma TextReadsBackIff(parts: Parts, headers: seq<string>)
    requires headers != [] && SigningString(parts, headers).Ok?
    ensures Covers(parts, headers, ReadBack(SigningString(parts, headers).value)) <==> NoNewline(parts, headers)
  {
    hide Lower, ValueOf, ReadLine, Join, Traverse, Split, SigningString;
    var lines := LinesAre(parts, headers);
    SplitOfJoin(lines, '\n');
    assert ['\n'] == "\n";
    if !NoNewline(parts, headers) {
      var i :| 0 <= i < |headers| && '\n' in ValueOf(parts, headers[i]).value;
      MorePieces(lines, i);
    }
  }

  lemma MorePieces(lines: seq<string>, i: nat)
    requires i < |lines| && '\n' in lines[i]
    ensures |Split(Join(lines, "\n"), '\n')| > |lines|
  {
    assert ['\n'] == "\n";
    OccursIff(lines[i], '\n');
    JoinCounts(lines, '\n', i);
    SplitCounts(Join(lines, "\n"), '\n');
  }
}

/**
 The bounded walk over a followers collection
 (fedify-sidecar/activitypods-integration/activitypub-recipient-resolution.js).
 */
module FollowersWalk {
  import opened Prelude
  import opened JsonTree

  // ----- URLs and audiences -----

  type Href = s: string | s != "" witness "https:"

  datatype ParsedUrl = ParsedUrl(protocol: string, hostname: string, href: Href)

  /** A fetched page: no usable body (fetch error, error status, bad JSON), or its JSON. */
  datatype Fetched = Unavailable | Body(payload: Json)

  /** What the code sees of the outside: the URL parser and the responses. */
  datatype Web = Web(parse: string -> Option<ParsedUrl>, fetch: Href -> Fetched)

  const PUBLIC_AUDIENCE_URIS := {"https://www.w3.org/ns/activitystreams#Public", "as:Public", "Public"}

  const LOCALHOST_HOSTNAMES := {"localhost", "127.0.0.1", "::1"}

  function NormalizeUrl(web: Web, value: Option<Json>): Option<Href> {
    if value.None? || !value.value.JString? then None
    else
      var trimmed := Trim(value.value.s);
      if trimmed == "" then None
      else match web.parse(trimmed)
        case None => None
        case Some(url) =>
          if url.protocol == "https:" then Some(url.href)
          else if url.protocol == "http:" && url.hostname in LOCALHOST_HOSTNAMES then Some(url.href)
          else None
  }

  predicate IsPublicAudience(value: string) {
    Trim(value) in PUBLIC_AUDIENCE_URIS
  }

  // ----- pages -----

  function ArrayField(payload: Json, name: string): Option<seq<Json>> {
    match Field(payload, name)
    case Some(JArray(items)) => Some(items)
    case _ => None
  }

  /** Items of the page itself, or else of an embedded first page, however deep. */
  function ExtractCollectionItems(payload: Json): seq<Json>
    decreases payload
  {
    var ordered := ArrayField(payload, "orderedItems");
    var items := ArrayField(payload, "items");
    var directItems := if ordered.Some? then ordered.value else if items.Some? then items.value else [];
    if |directItems| > 0 then directItems
    else if payload.JObject? && "first" in payload.fields && payload.fields["first"].JObject? then
      ExtractCollectionItems(payload.fields["first"])
    else []
  }

  function LinkField(web: Web, payload: Json, name: string): Option<Href> {
    NormalizeUrl(web, Field(payload, name))
  }

  function ActorUriOfItem(item: Json): Option<Json> {
    if item.JString? then Some(item)
    else
      match Field(item, "id")
      case Some(JString(id)) => Some(JString(id))
      case _ =>
        match Field(item, "@id")
        case Some(JString(id)) => Some(JString(id))
        case _ => None
  }

  /** The follower an item stands for: normalised, not public, not the actor itself. */
  function Candidate(web: Web, actorUri: string, item: Json): Option<Href> {
    match NormalizeUrl(web, ActorUriOfItem(item))
    case Some(uri) => if !IsPublicAudience(uri) && uri != actorUri then Some(uri) else None
    case None => None
  }

  function StripSlash(s: string): string {
    if s != "" && s[|s| - 1] == '/' then s[..|s| - 1] else s
  }

  function AddIfAny<T(==)>(s: seq<T>, x: Option<T>): seq<T> {
    if x.Some? then Add(s, x.value) else s
  }

  function FollowersCollectionUris(web: Web, actorUri: string, actor: Json): seq<Href> {
    AddIfAny(AddIfAny([], NormalizeUrl(web, Field(actor, "followers"))),
             NormalizeUrl(web, Some(JString(StripSlash(actorUri) + "/followers"))))
  }

  function LinksOf(web: Web, payload: Json): seq<Href> {
    var next, first := LinkField(web, payload, "next"), LinkField(web, payload, "first");
    (if next.Some? then [next.value] else []) + (if first.Some? then [first.value] else [])
  }

  /** Outgoing links of a URL; pages that cannot be read have none. */
  function Links(web: Web, url: Href): seq<Href> {
    match web.fetch(url)
    case Unavailable => []
    case Body(payload) => LinksOf(web, payload)
  }

  /** Items of a URL; pages that cannot be read have none. */
  function Items(web: Web, url: Href): seq<Json> {
    match web.fetch(url)
    case Unavailable => []
    case Body(payload) => ExtractCollectionItems(payload)
  }

  // ----- what the pages say, read off their JSON -----

  /** The URL a text stands for: trimmed, parsed, and https, or http on the local host. */
  ghost predicate NormalizesTo(web: Web, text: string, uri: Href) {
    && Trim(text) != ""
    && exists url :: web.parse(Trim(text)) == Some(url) && url.href == uri
         && (url.protocol == "https:"
             || (url.protocol == "http:"
                 && (url.hostname == "localhost" || url.hostname == "127.0.0.1" || url.hostname == "::1")))
  }

  /** A JSON string that stands for the URL. */
  ghost predicate ValueNormalizesTo(web: Web, value: Option<Json>, uri: Href) {
    value.Some? && value.value.JString? && NormalizesTo(web, value.value.s, uri)
  }

  lemma NormalizeUrlIs(web: Web, value: Option<Json>, uri: Href)
    ensures NormalizeUrl(web, value) == Some(uri) <==> ValueNormalizesTo(web, value, uri)
  {
    hide Trim;
  }

  /** A spelling of the public audience. */
  ghost predicate Public(value: string) {
    || Trim(value) == "https://www.w3.org/ns/activitystreams#Public"
    || Trim(value) == "as:Public"
    || Trim(value) == "Public"
  }

  lemma PublicIs(value: string)
    ensures IsPublicAudience(value) <==> Public(value)
  {
    hide Trim;
  }

  /** A page's own items: `orderedItems` if that is an array, and only otherwise `items`. */
  ghost predicate OwnItems(page: Json, items: seq<Json>) {
    || Field(page, "orderedItems") == Some(JArray(items))
    || (Field(page, "items") == Some(JArray(items)) && forall xs :: Field(page, "orderedItems") != Some(JArray(xs)))
  }

  /** A page without items of its own that embeds another as `first`. */
  ghost predicate Embeds(page: Json, first: Json) {
    && (forall items :: OwnItems(page, items) ==> items == [])
    && first.JObject? && Field(page, "first") == Some(first)
  }

  ghost predicate Nested(pages: seq<Json>) {
    pages != [] && forall i :: 0 < i < |pages| ==> Embeds(pages[i - 1], pages[i])
  }

  /** The page lists these items, itself or in an embedded first page. */
  ghost predicate Lists(payload: Json, items: seq<Json>) {
    items != [] && exists pages ::
      Nested(pages) && pages[0] == payload && OwnItems(pages[|pages| - 1], items)
  }

  lemma OwnAreExtracted(page: Json, items: seq<Json>)
    requires OwnItems(page, items) && items != []
    ensures ExtractCollectionItems(page) == items
  {
  }

  lemma EmbeddedAreExtracted(page: Json, first: Json)
    requires Embeds(page, first)
    ensures ExtractCollectionItems(page) == ExtractCollectionItems(first)
  {
    NothingOwn(page);
  }

  lemma NothingOwn(page: Json)
    requires forall items :: OwnItems(page, items) ==> items == []
    ensures ExtractCollectionItems(page)
         == match Field(page, "first")
            case Some(JObject(fields)) => ExtractCollectionItems(page.fields["first"])
            case _ => []
  {
    var ordered, items := ArrayField(page, "orderedItems"), ArrayField(page, "items");
    if ordered.Some? {
      assert OwnItems(page, ordered.value);
    } else if items.Some? {
      assert OwnItems(page, items.value);
    }
  }

  lemma {:induction false} NestedAreExtracted(pages: seq<Json>, items: seq<Json>)
    requires Nested(pages) && OwnItems(pages[|pages| - 1], items) && items != []
    ensures ExtractCollectionItems(pages[0]) == items
    decreases |pages|
  {
    hide Embeds, OwnItems, ExtractCollectionItems;
    if |pages| == 1 {
      OwnAreExtracted(pages[0], items);
    } else {
      var rest := pages[1..];
      forall i | 0 < i < |rest| ensures Embeds(rest[i - 1], rest[i]) {
        assert Embeds(pages[i + 1 - 1], pages[i + 1]);
      }
      NestedAreExtracted(rest, items);
      assert Embeds(pages[1 - 1], pages[1]);
      EmbeddedAreExtracted(pages[0], pages[1]);
    }
  }

  /** A page from which something is extracted lists it itself or embeds a page from which it is. */
  lemma OwnOrEmbedded(payload: Json)
    requires ExtractCollectionItems(payload) != []
    ensures OwnItems(payload, ExtractCollectionItems(payload))
         || (payload.JObject? && "first" in payload.fields && Embeds(payload, payload.fields["first"]))
  {
    if items :| OwnItems(payload, items) && items != [] {
      OwnAreExtracted(payload, items);
    } else {
      NothingOwn(payload);
    }
  }

  lemma {:induction false} ExtractedAreNested(payload: Json) returns (pages: seq<Json>)
    requires ExtractCollectionItems(payload) != []
    ensures Nested(pages) && pages[0] == payload
    ensures OwnItems(pages[|pages| - 1], ExtractCollectionItems(payload))
    decreases payload
  {
    hide Embeds, OwnItems, ExtractCollectionItems;
    OwnOrEmbedded(payload);
    pages := [payload];
    if !OwnItems(payload, ExtractCollectionItems(payload)) {
      EmbeddedAreExtracted(payload, payload.fields["first"]);
      var rest := ExtractedAreNested(payload.fields["first"]);
      pages := [payload] + rest;
      forall i | 0 < i < |pages| ensures Embeds(pages[i - 1], pages[i]) {
        if i > 1 {
          assert Embeds(rest[i - 1 - 1], rest[i - 1]);
        }
      }
    }
  }

  /** What is extracted from a page is what it lists, and nothing if it lists nothing. */
  lemma ItemsAreListed(payload: Json, items: seq<Json>)
    requires items != []
    ensures ExtractCollectionItems(payload) == items <==> Lists(payload, items)
  {
    if ExtractCollectionItems(payload) == items {
      var pages := ExtractedAreNested(payload);
    } else if Lists(payload, items) {
      var pages :| Nested(pages) && pages[0] == payload && OwnItems(pages[|pages| - 1], items);
      NestedAreExtracted(pages, items);
    }
  }

  /** What an item is called: itself, its `id`, or its `@id` when `id` is no string. */
  ghost predicate Names(item: Json, name: string) {
    || item == JString(name)
    || Field(item, "id") == Some(JString(name))
    || (Field(item, "@id") == Some(JString(name)) && forall id :: Field(item, "id") != Some(JString(id)))
  }

  /** The item stands for this follower: normalised, not public, and not the actor itself. */
  ghost predicate StandsFor(web: Web, actorUri: string, item: Json, uri: Href) {
    && (exists name :: Names(item, name) && NormalizesTo(web, name, uri))
    && !Public(uri) && uri != actorUri
  }

  lemma ActorUriIs(item: Json, name: string)
    ensures ActorUriOfItem(item) == Some(JString(name)) <==> Names(item, name)
  {
  }

  lemma CandidateIs(web: Web, actorUri: string, item: Json, uri: Href)
    ensures Candidate(web, actorUri, item) == Some(uri) <==> StandsFor(web, actorUri, item, uri)
  {
    hide NormalizeUrl, NormalizesTo, IsPublicAudience, Public, ActorUriOfItem, Names;
    NormalizeUrlIs(web, ActorUriOfItem(item), uri);
    PublicIs(uri);
    forall name ensures ActorUriOfItem(item) == Some(JString(name)) <==> Names(item, name) {
      ActorUriIs(item, name);
    }
  }

  /** A page links to another by a string under `next` or `first`. */
  ghost predicate LinksTo(web: Web, from: Href, to: Href) {
    && web.fetch(from).Body?
    && (ValueNormalizesTo(web, Field(web.fetch(from).payload, "next"), to)
        || ValueNormalizesTo(web, Field(web.fetch(from).payload, "first"), to))
  }

  lemma LinksAre(web: Web, from: Href, to: Href)
    ensures to in Links(web, from) <==> LinksTo(web, from, to)
  {
    hide NormalizeUrl, ValueNormalizesTo;
    match web.fetch(from)
    case Unavailable =>
    case Body(payload) =>
      NormalizeUrlIs(web, Field(payload, "next"), to);
      NormalizeUrlIs(web, Field(payload, "first"), to);
  }

  /** The page lists an item that stands for this follower. */
  ghost predicate Offers(web: Web, actorUri: string, url: Href, uri: Href) {
    && web.fetch(url).Body?
    && exists items, item ::
         Lists(web.fetch(url).payload, items) && item in items && StandsFor(web, actorUri, item, uri)
  }

  lemma OffersIff(web: Web, actorUri: string, url: Href, uri: Href)
    ensures Offers(web, actorUri, url, uri)
       <==> exists item :: item in Items(web, url) && Candidate(web, actorUri, item) == Some(uri)
  {
    hide ExtractCollectionItems, Lists, Candidate, StandsFor;
    if web.fetch(url).Body? {
      var payload := web.fetch(url).payload;
      var items := ExtractCollectionItems(payload);
      forall item ensures Candidate(web, actorUri, item) == Some(uri) <==> StandsFor(web, actorUri, item, uri) {
        CandidateIs(web, actorUri, item, uri);
      }
      forall xs: seq<Json> | xs != [] ensures items == xs <==> Lists(payload, xs) {
        ItemsAreListed(payload, xs);
      }
      if item :| item in items && StandsFor(web, actorUri, item, uri) {
        assert Lists(payload, items);
      }
      if xs, item :| Lists(payload, xs) && item in xs && StandsFor(web, actorUri, item, uri) {
        assert xs != [];
      }
    }
  }

  /** The actor's followers collections: the one its document names, and the one its URI suggests. */
  ghost predicate FollowersCollection(web: Web, actorUri: string, actor: Json, uri: Href) {
    || ValueNormalizesTo(web, Field(actor, "followers"), uri)
    || exists base :: (actorUri == base + "/" || (base == actorUri && !(exists b :: actorUri == b + "/")))
         && NormalizesTo(web, base + "/followers", uri)
  }

  lemma StripSlashIs(s: string, base: string)
    ensures base == StripSlash(s) <==> s == base + "/" || (base == s && !(exists b :: s == b + "/"))
  {
    if s != "" && s[|s| - 1] == '/' {
      assert s == s[..|s| - 1] + "/";
    }
    if s == base + "/" {
      assert s[..|s| - 1] == base;
    }
  }

  lemma DerivedCollectionIs(web: Web, actorUri: string, uri: Href)
    ensures NormalizeUrl(web, Some(JString(StripSlash(actorUri) + "/followers"))) == Some(uri)
       <==> exists base :: (actorUri == base + "/" || (base == actorUri && !(exists b :: actorUri == b + "/")))
              && NormalizesTo(web, base + "/followers", uri)
  {
    hide NormalizeUrl, NormalizesTo, StripSlash;
    NormalizeUrlIs(web, Some(JString(StripSlash(actorUri) + "/followers")), uri);
    forall base
      ensures base == StripSlash(actorUri)
         <==> actorUri == base + "/" || (base == actorUri && !(exists b :: actorUri == b + "/"))
    {
      StripSlashIs(actorUri, base);
    }
  }

  /** The collections in the order the walk begins with: the document's own first. */
  lemma FollowersCollectionsAre(web: Web, actorUri: string, actor: Json, uri: Href)
    ensures NoDuplicates(FollowersCollectionUris(web, actorUri, actor))
    ensures uri in FollowersCollectionUris(web, actorUri, actor) <==> FollowersCollection(web, actorUri, actor, uri)
    ensures ValueNormalizesTo(web, Field(actor, "followers"), uri) ==>
              |FollowersCollectionUris(web, actorUri, actor)| > 0
              && FollowersCollectionUris(web, actorUri, actor)[0] == uri
  {
    hide NormalizeUrl, NormalizesTo, ValueNormalizesTo, StripSlash;
    NormalizeUrlIs(web, Field(actor, "followers"), uri);
    DerivedCollectionIs(web, actorUri, uri);
  }

  // ----- the graph the walk explores -----

  ghost predicate IsPath(web: Web, roots: seq<Href>, path: seq<Href>) {
    && path != []
    && path[0] in roots
    && forall i :: 0 <= i < |path| - 1 ==> LinksTo(web, path[i], path[i + 1])
  }

  ghost predicate Reachable(web: Web, roots: seq<Href>, url: Href) {
    exists path :: IsPath(web, roots, path) && path[|path| - 1] == url
  }

  /** The followers of the actor: what the reachable pages offer. */
  ghost predicate Follower(web: Web, actorUri: string, roots: seq<Href>, uri: Href) {
    exists url :: Reachable(web, roots, url) && Offers(web, actorUri, url, uri)
  }

  // ----- the walk as a function -----

  datatype Limits = Limits(maxPages: nat, maxFollowerActors: nat)

  datatype Walk = Walk(queue: seq<Href>, seen: seq<Href>, actorUris: seq<Href>)

  /** Adding one page's items, stopping at the actor cap. */
  function Collect(web: Web, actorUri: string, cap: nat, actorUris: seq<Href>, items: seq<Json>): seq<Href>
    decreases items
  {
    if items == [] then actorUris
    else
      var more := AddIfAny(actorUris, Candidate(web, actorUri, items[0]));
      if |more| >= cap then more else Collect(web, actorUri, cap, more, items[1..])
  }

  function Push(queue: seq<Href>, link: Option<Href>, seen: seq<Href>): seq<Href> {
    if link.Some? && link.value !in seen then queue + [link.value] else queue
  }

  predicate Done(limits: Limits, w: Walk) {
    |w.queue| == 0 || |w.seen| >= limits.maxPages || |w.actorUris| >= limits.maxFollowerActors
  }

  function Advance(web: Web, actorUri: string, limits: Limits, w: Walk): Walk
    requires !Done(limits, w)
  {
    var url, rest := w.queue[0], w.queue[1..];
    if url in w.seen then w.(queue := rest)
    else
      var seen := w.seen + [url];
      match web.fetch(url)
      case Unavailable => Walk(rest, seen, w.actorUris)
      case Body(payload) =>
        Walk(Push(Push(rest, LinkField(web, payload, "next"), seen), LinkField(web, payload, "first"), seen), seen,
             Collect(web, actorUri, limits.maxFollowerActors, w.actorUris, ExtractCollectionItems(payload)))
  }

  function Finish(web: Web, actorUri: string, limits: Limits, w: Walk): Walk
    decreases if |w.seen| < limits.maxPages then limits.maxPages - |w.seen| else 0, |w.queue|
  {
    if Done(limits, w) then w else Finish(web, actorUri, limits, Advance(web, actorUri, limits, w))
  }

  function Start(roots: seq<Href>): Walk {
    Walk(roots, [], [])
  }

  /**
   The source's loop. Besides the followers it hands out, as `fetched`, the URLs it requested in order.
   Termination: each round either requests a new page, of which there are at most maxPages, or shortens
   the queue.
   */
  method FetchFollowersActorUris(web: Web, actorUri: string, actor: Json, limits: Limits)
    returns (actorUris: seq<Href>, fetched: seq<Href>)
    ensures var end := Finish(web, actorUri, limits, Start(FollowersCollectionUris(web, actorUri, actor)));
            actorUris == end.actorUris && fetched == end.seen
  {
    var queue: seq<Href> := FollowersCollectionUris(web, actorUri, actor);
    ghost var end := Finish(web, actorUri, limits, Start(queue));
    var seen: seq<Href> := [];
    actorUris := [];
    while |queue| > 0 && |seen| < limits.maxPages && |actorUris| < limits.maxFollowerActors
      invariant Finish(web, actorUri, limits, Walk(queue, seen, actorUris)) == end
      decreases limits.maxPages - |seen|, |queue|
    {
      ghost var before := Walk(queue, seen, actorUris);
      var url := queue[0];
      queue := queue[1..];
      if url in seen {
        continue;
      }
      seen := seen + [url];
      var response := web.fetch(url);
      if response.Unavailable? {
        continue;
      }
      var payload := response.payload;
      actorUris := CollectItems(web, actorUri, limits.maxFollowerActors, actorUris, ExtractCollectionItems(payload));
      var nextUrl := LinkField(web, payload, "next");
      if nextUrl.Some? && nextUrl.value !in seen {
        queue := queue + [nextUrl.value];
      }
      var firstUrl := LinkField(web, payload, "first");
      if firstUrl.Some? && firstUrl.value !in seen {
        queue := queue + [firstUrl.value];
      }
      assert Walk(queue, seen, actorUris) == Advance(web, actorUri, limits, before);
    }
    fetched := seen;
  }

  /** The inner loop over one page's items. */
  method CollectItems(web: Web, actorUri: string, cap: nat, before: seq<Href>, items: seq<Json>)
    returns (actorUris: seq<Href>)
    ensures actorUris == Collect(web, actorUri, cap, before, items)
  {
    actorUris := before;
    var i := 0;
    while i < |items|
      invariant i <= |items|
      invariant Collect(web, actorUri, cap, actorUris, items[i..]) == Collect(web, actorUri, cap, before, items)
    {
      var normalized := Candidate(web, actorUri, items[i]);
      assert items[i..][1..] == items[i + 1..];
      if normalized.Some? {
        actorUris := Add(actorUris, normalized.value);
      }
      if |actorUris| >= cap {
        break;
      }
      i := i + 1;
    }
  }

  // ----- what the walk computes -----

  lemma RootIsReachable(web: Web, roots: seq<Href>, url: Href)
    requires url in roots
    ensures Reachable(web, roots, url)
  {
    assert IsPath(web, roots, [url]);
  }

  lemma LinkIsReachable(web: Web, roots: seq<Href>, from: Href, to: Href)
    requires Reachable(web, roots, from) && LinksTo(web, from, to)
    ensures Reachable(web, roots, to)
  {
    var path :| IsPath(web, roots, path) && path[|path| - 1] == from;
    var longer := path + [to];
    assert IsPath(web, roots, longer) && longer[|longer| - 1] == to;
  }

  /** A set of URLs that holds the roots and is closed under links. */
  ghost predicate Closed(web: Web, roots: seq<Href>, urls: set<Href>) {
    && (forall u :: u in roots ==> u in urls)
    && (forall u, v :: u in urls && LinksTo(web, u, v) ==> v in urls)
  }

  lemma {:induction false} ClosedHoldsPath(web: Web, roots: seq<Href>, urls: set<Href>, path: seq<Href>, i: nat)
    requires Closed(web, roots, urls) && IsPath(web, roots, path) && i < |path|
    ensures path[i] in urls
  {
    if i > 0 {
      ClosedHoldsPath(web, roots, urls, path, i - 1);
      assert LinksTo(web, path[i - 1], path[i - 1 + 1]);
    }
  }

  lemma ClosedHoldsReachable(web: Web, roots: seq<Href>, urls: set<Href>, url: Href)
    requires Closed(web, roots, urls) && Reachable(web, roots, url)
    ensures url in urls
  {
    var path :| IsPath(web, roots, path) && path[|path| - 1] == url;
    ClosedHoldsPath(web, roots, urls, path, |path| - 1);
  }

  /** Collecting keeps what was there, adds only the page's candidates, and all of them below the cap. */
  lemma {:induction false} CollectAdds(
      web: Web, actorUri: string, cap: nat, actorUris: seq<Href>, items: seq<Json>)
    requires NoDuplicates(actorUris) && |actorUris| < cap
    ensures var after := Collect(web, actorUri, cap, actorUris, items);
            && NoDuplicates(after) && |after| <= cap
            && (forall uri :: uri in actorUris ==> uri in after)
            && (forall uri :: uri in after && uri !in actorUris ==>
                  exists item :: item in items && Candidate(web, actorUri, item) == Some(uri))
            && (|after| < cap ==> forall item :: item in items && Candidate(web, actorUri, item).Some? ==>
                  Candidate(web, actorUri, item).value in after)
    decreases items
  {
    if items != [] {
      var c := Candidate(web, actorUri, items[0]);
      var more := AddIfAny(actorUris, c);
      assert items[0] in items && forall item :: item in items[1..] ==> item in items;
      if c.Some? {
        AddKeepsNoDuplicates(actorUris, c.value);
      }
      if |more| < cap {
        CollectAdds(web, actorUri, cap, more, items[1..]);
        assert forall item :: item in items ==> item == items[0] || item in items[1..];
      }
    }
  }

  /** The invariant of the walk: its first half is about bounds. */
  ghost predicate Bounded(limits: Limits, w: Walk) {
    && NoDuplicates(w.seen) && |w.seen| <= limits.maxPages
    && NoDuplicates(w.actorUris) && |w.actorUris| <= limits.maxFollowerActors
  }

  ghost predicate Sound(web: Web, actorUri: string, roots: seq<Href>, w: Walk) {
    && (forall u :: u in w.queue || u in w.seen ==> Reachable(web, roots, u))
    && (forall uri :: uri in w.actorUris ==> Follower(web, actorUri, roots, uri))
  }

  /** Nothing is forgotten: known URLs are seen or queued, and below the cap every seen page is collected. */
  ghost predicate Complete(web: Web, actorUri: string, limits: Limits, roots: seq<Href>, w: Walk) {
    && (forall u :: u in roots ==> u in w.seen || u in w.queue)
    && (forall u, v :: u in w.seen && LinksTo(web, u, v) ==> v in w.seen || v in w.queue)
    && (|w.actorUris| < limits.maxFollowerActors ==>
          forall u, uri :: u in w.seen && Offers(web, actorUri, u, uri) ==> uri in w.actorUris)
  }

  ghost predicate WalkInv(web: Web, actorUri: string, limits: Limits, roots: seq<Href>, w: Walk) {
    Bounded(limits, w) && Sound(web, actorUri, roots, w) && Complete(web, actorUri, limits, roots, w)
  }

  lemma PushAdds(queue: seq<Href>, link: Option<Href>, seen: seq<Href>)
    ensures forall u :: u in Push(queue, link, seen) <==> u in queue || (link == Some(u) && u !in seen)
  {
  }

  lemma QueueAfter(web: Web, actorUri: string, limits: Limits, w: Walk, u: Href)
    requires !Done(limits, w) && w.queue[0] !in w.seen
    ensures u in Advance(web, actorUri, limits, w).queue
       <==> u in w.queue[1..] || (LinksTo(web, w.queue[0], u) && u !in w.seen && u != w.queue[0])
  {
    var url, rest := w.queue[0], w.queue[1..];
    LinksAre(web, url, u);
    hide LinksTo;
    match web.fetch(url)
    case Unavailable =>
    case Body(payload) =>
      var next, first := LinkField(web, payload, "next"), LinkField(web, payload, "first");
      var seen := w.seen + [url];
      PushAdds(rest, next, seen);
      PushAdds(Push(rest, next, seen), first, seen);
      assert u in LinksOf(web, payload) <==> next == Some(u) || first == Some(u);
  }

  lemma BoundedStep(web: Web, actorUri: string, limits: Limits, w: Walk)
    requires Bounded(limits, w) && !Done(limits, w)
    ensures Bounded(limits, Advance(web, actorUri, limits, w))
  {
    var url := w.queue[0];
    if url !in w.seen {
      AddKeepsNoDuplicates(w.seen, url);
      if web.fetch(url).Body? {
        CollectAdds(web, actorUri, limits.maxFollowerActors, w.actorUris,
                    ExtractCollectionItems(web.fetch(url).payload));
      }
    }
  }

  lemma SoundStep(web: Web, actorUri: string, limits: Limits, roots: seq<Href>, w: Walk)
    requires Bounded(limits, w) && Sound(web, actorUri, roots, w) && !Done(limits, w)
    ensures Sound(web, actorUri, roots, Advance(web, actorUri, limits, w))
  {
    var url, t := w.queue[0], Advance(web, actorUri, limits, w);
    assert url in w.queue && forall u :: u in w.queue[1..] ==> u in w.queue;
    if url !in w.seen {
      forall u | u in t.queue || u in t.seen ensures Reachable(web, roots, u) {
        QueueAfter(web, actorUri, limits, w, u);
        if LinksTo(web, url, u) {
          LinkIsReachable(web, roots, url, u);
        }
      }
      if web.fetch(url).Body? {
        CollectAdds(web, actorUri, limits.maxFollowerActors, w.actorUris,
                    ExtractCollectionItems(web.fetch(url).payload));
        forall uri | uri in t.actorUris && uri !in w.actorUris ensures Follower(web, actorUri, roots, uri) {
          OffersIff(web, actorUri, url, uri);
        }
      }
    }
  }

  lemma LinksStayKnown(web: Web, actorUri: string, limits: Limits, roots: seq<Href>, w: Walk)
    requires Complete(web, actorUri, limits, roots, w) && !Done(limits, w)
    ensures var t := Advance(web, actorUri, limits, w);
            && (forall u :: u in roots ==> u in t.seen || u in t.queue)
            && (forall u, v :: u in t.seen && LinksTo(web, u, v) ==> v in t.seen || v in t.queue)
  {
    var url, t := w.queue[0], Advance(web, actorUri, limits, w);
    assert forall u :: u in w.queue ==> u == url || u in w.queue[1..];
    if url !in w.seen {
      assert t.seen == w.seen + [url];
      forall u | u in w.queue || LinksTo(web, url, u) ensures u in t.seen || u in t.queue {
        QueueAfter(web, actorUri, limits, w, u);
      }
    }
  }

  lemma CompleteStep(web: Web, actorUri: string, limits: Limits, roots: seq<Href>, w: Walk)
    requires Bounded(limits, w) && Complete(web, actorUri, limits, roots, w) && !Done(limits, w)
    ensures Complete(web, actorUri, limits, roots, Advance(web, actorUri, limits, w))
  {
    LinksStayKnown(web, actorUri, limits, roots, w);
    var url, t := w.queue[0], Advance(web, actorUri, limits, w);
    if url !in w.seen && |t.actorUris| < limits.maxFollowerActors {
      assert t.seen == w.seen + [url];
      if web.fetch(url).Body? {
        CollectAdds(web, actorUri, limits.maxFollowerActors, w.actorUris,
                    ExtractCollectionItems(web.fetch(url).payload));
      }
      forall u, uri | u in t.seen && Offers(web, actorUri, u, uri) ensures uri in t.actorUris {
        if u == url {
          OffersIff(web, actorUri, url, uri);
        }
      }
    }
  }

  lemma {:induction false} FinishKeepsInv(web: Web, actorUri: string, limits: Limits, roots: seq<Href>, w: Walk)
    requires WalkInv(web, actorUri, limits, roots, w)
    ensures var end := Finish(web, actorUri, limits, w);
            WalkInv(web, actorUri, limits, roots, end) && Done(limits, end)
    decreases if |w.seen| < limits.maxPages then limits.maxPages - |w.seen| else 0, |w.queue|
  {
    if !Done(limits, w) {
      BoundedStep(web, actorUri, limits, w);
      SoundStep(web, actorUri, limits, roots, w);
      CompleteStep(web, actorUri, limits, roots, w);
      FinishKeepsInv(web, actorUri, limits, roots, Advance(web, actorUri, limits, w));
    }
  }

  lemma EndInv(web: Web, actorUri: string, limits: Limits, roots: seq<Href>)
    ensures var end := Finish(web, actorUri, limits, Start(roots));
            WalkInv(web, actorUri, limits, roots, end) && Done(limits, end)
  {
    forall u | u in roots ensures Reachable(web, roots, u) {
      RootIsReachable(web, roots, u);
    }
    FinishKeepsInv(web, actorUri, limits, roots, Start(roots));
  }

  /** Whatever the pages contain: no URL is requested twice, and neither cap is exceeded. */
  lemma WalkIsBounded(web: Web, actorUri: string, limits: Limits, roots: seq<Href>)
    ensures var end := Finish(web, actorUri, limits, Start(roots));
            && NoDuplicates(end.seen) && |end.seen| <= limits.maxPages
            && NoDuplicates(end.actorUris) && |end.actorUris| <= limits.maxFollowerActors
            && forall u :: u in end.seen ==> Reachable(web, roots, u)
  {
    EndInv(web, actorUri, limits, roots);
  }

  /** Every result is a follower; with nothing left to read and the actor cap not hit, every follower is a result. */
  lemma WalkIsExact(web: Web, actorUri: string, limits: Limits, roots: seq<Href>)
    ensures var end := Finish(web, actorUri, limits, Start(roots));
            && (forall uri :: uri in end.actorUris ==> Follower(web, actorUri, roots, uri))
            && ((forall u :: u in end.queue ==> u in end.seen) && |end.actorUris| < limits.maxFollowerActors ==>
                  forall uri :: Follower(web, actorUri, roots, uri) ==> uri in end.actorUris)
  {
    EndInv(web, actorUri, limits, roots);
    var end := Finish(web, actorUri, limits, Start(roots));
    if (forall u :: u in end.queue ==> u in end.seen) && |end.actorUris| < limits.maxFollowerActors {
      forall uri | Follower(web, actorUri, roots, uri) ensures uri in end.actorUris {
        var url :| Reachable(web, roots, url) && Offers(web, actorUri, url, uri);
        assert Closed(web, roots, Elements(end.seen));
        ClosedHoldsReachable(web, roots, Elements(end.seen), url);
      }
    }
  }

  /** When the reachable pages fit the page cap, the walk leaves no unread URL or reaches the actor cap. */
  lemma PagesFit(web: Web, actorUri: string, limits: Limits, roots: seq<Href>, pages: set<Href>)
    requires Closed(web, roots, pages) && |pages| <= limits.maxPages
    ensures var end := Finish(web, actorUri, limits, Start(roots));
            |end.actorUris| >= limits.maxFollowerActors || forall u :: u in end.queue ==> u in end.seen
  {
    EndInv(web, actorUri, limits, roots);
    var end := Finish(web, actorUri, limits, Start(roots));
    forall u | u in end.queue || u in end.seen ensures u in pages {
      ClosedHoldsReachable(web, roots, pages, u);
    }
    if |end.seen| >= limits.maxPages {
      DistinctCount(end.seen);
      SubsetCount(Elements(end.seen), pages);
      assert Elements(end.seen) == pages;
    }
  }

  /**
   For an actor whose collection has at most maxPages pages, the result is complete exactly when the
   followers fit the actor cap, and otherwise the cap is filled.
   */
  lemma CompleteIffFollowersFit(
      web: Web, actorUri: string, limits: Limits, roots: seq<Href>, pages: set<Href>, followers: set<Href>)
    requires Closed(web, roots, pages) && |pages| <= limits.maxPages
    requires forall uri :: uri in followers <==> Follower(web, actorUri, roots, uri)
    ensures var actorUris := Finish(web, actorUri, limits, Start(roots)).actorUris;
            && (Elements(actorUris) == followers <==> |followers| <= limits.maxFollowerActors)
            && |actorUris| == if |followers| <= limits.maxFollowerActors then |followers| else limits.maxFollowerActors
  {
    var end := Finish(web, actorUri, limits, Start(roots));
    WalkIsBounded(web, actorUri, limits, roots);
    WalkIsExact(web, actorUri, limits, roots);
    PagesFit(web, actorUri, limits, roots, pages);
    DistinctCount(end.actorUris);
    SubsetCount(Elements(end.actorUris), followers);
    if |end.actorUris| < limits.maxFollowerActors {
      assert Elements(end.actorUris) == followers;
    }
  }

  // ----- nearest pages first -----

  /** How many pages the path that found each URL has: for the queue by position, for the URLs requested by name. */
  datatype Depths = Depths(queued: seq<nat>, seen: map<Href, nat>)

  ghost predicate HasPath(web: Web, roots: seq<Href>, url: Href, n: nat) {
    exists path :: IsPath(web, roots, path) && path[|path| - 1] == url && |path| == n
  }

  /** The URL is known at no more than this depth. */
  ghost predicate Within(w: Walk, d: Depths, url: Href, n: nat)
    requires |d.queued| == |w.queue|
  {
    || (url in d.seen && d.seen[url] <= n)
    || exists i :: 0 <= i < |w.queue| && w.queue[i] == url && d.queued[i] <= n
  }

  /** The queue is ordered by depth, spans at most two of them, and is no nearer than what was requested. */
  ghost predicate Layered(w: Walk, d: Depths) {
    && |d.queued| == |w.queue|
    && (forall u :: u in d.seen <==> u in w.seen)
    && (forall i, j :: 0 <= i < j < |d.queued| ==> d.queued[i] <= d.queued[j] <= d.queued[i] + 1)
    && (forall u, i :: u in d.seen && 0 <= i < |d.queued| ==> d.seen[u] <= d.queued[i])
  }

  ghost predicate DepthsAttained(web: Web, roots: seq<Href>, w: Walk, d: Depths)
    requires |d.queued| == |w.queue|
  {
    && (forall u :: u in d.seen ==> HasPath(web, roots, u, d.seen[u]))
    && (forall i :: 0 <= i < |w.queue| ==> HasPath(web, roots, w.queue[i], d.queued[i]))
  }

  ghost predicate DepthsSpread(web: Web, roots: seq<Href>, w: Walk, d: Depths)
    requires |d.queued| == |w.queue|
  {
    && (forall u :: u in roots ==> Within(w, d, u, 1))
    && (forall u, v :: u in d.seen && LinksTo(web, u, v) ==> Within(w, d, v, d.seen[u] + 1))
  }

  ghost predicate BreadthInv(web: Web, roots: seq<Href>, w: Walk, d: Depths) {
    Layered(w, d) && DepthsAttained(web, roots, w, d) && DepthsSpread(web, roots, w, d)
  }

  function Repeat(n: nat, count: nat): (r: seq<nat>)
    ensures |r| == count && forall i :: 0 <= i < count ==> r[i] == n
  {
    seq(count, _ => n)
  }

  /** The depths after a round: links of the page just requested are one deeper than it. */
  function NextDepths(web: Web, actorUri: string, limits: Limits, w: Walk, d: Depths): Depths
    requires !Done(limits, w) && |d.queued| == |w.queue|
  {
    var t := Advance(web, actorUri, limits, w);
    if w.queue[0] in w.seen then Depths(d.queued[1..], d.seen)
    else
      var added := if |t.queue| >= |w.queue| - 1 then |t.queue| - (|w.queue| - 1) else 0;
      Depths(d.queued[1..] + Repeat(d.queued[0] + 1, added), d.seen[w.queue[0] := d.queued[0]])
  }

  /** A round keeps the rest of the queue and puts links of the page behind it. */
  lemma QueueGrows(web: Web, actorUri: string, limits: Limits, w: Walk)
    requires !Done(limits, w)
    ensures var t := Advance(web, actorUri, limits, w);
            && w.queue[1..] <= t.queue
            && (w.queue[0] in w.seen ==> t.queue == w.queue[1..] && t.seen == w.seen)
            && (w.queue[0] !in w.seen ==> t.seen == w.seen + [w.queue[0]])
            && forall i :: |w.queue| - 1 <= i < |t.queue| ==> LinksTo(web, w.queue[0], t.queue[i])
  {
    hide NormalizeUrl, LinksTo, Collect, ExtractCollectionItems;
    forall u ensures u in Links(web, w.queue[0]) <==> LinksTo(web, w.queue[0], u) {
      LinksAre(web, w.queue[0], u);
    }
  }

  lemma RoundLayers(web: Web, actorUri: string, limits: Limits, w: Walk, d: Depths)
    requires !Done(limits, w) && Layered(w, d)
    ensures Layered(Advance(web, actorUri, limits, w), NextDepths(web, actorUri, limits, w, d))
  {
    hide Advance;
    QueueGrows(web, actorUri, limits, w);
  }

  lemma OneFurther(web: Web, roots: seq<Href>, url: Href, link: Href, n: nat)
    requires HasPath(web, roots, url, n) && LinksTo(web, url, link)
    ensures HasPath(web, roots, link, n + 1)
  {
    hide LinksTo;
    var path :| IsPath(web, roots, path) && path[|path| - 1] == url && |path| == n;
    var longer := path + [link];
    assert IsPath(web, roots, longer);
  }

  lemma RoundAttains(web: Web, actorUri: string, limits: Limits, roots: seq<Href>, w: Walk, d: Depths)
    requires !Done(limits, w) && Layered(w, d) && DepthsAttained(web, roots, w, d)
    ensures Layered(Advance(web, actorUri, limits, w), NextDepths(web, actorUri, limits, w, d))
    ensures DepthsAttained(web, roots, Advance(web, actorUri, limits, w), NextDepths(web, actorUri, limits, w, d))
  {
    RoundLayers(web, actorUri, limits, w, d);
    QueueGrows(web, actorUri, limits, w);
    hide Advance, HasPath, LinksTo;
    var t, e := Advance(web, actorUri, limits, w), NextDepths(web, actorUri, limits, w, d);
    forall i | 0 <= i < |t.queue| ensures HasPath(web, roots, t.queue[i], e.queued[i]) {
      if i < |w.queue| - 1 {
        assert t.queue[i] == w.queue[1..][i] == w.queue[i + 1];
      } else {
        OneFurther(web, roots, w.queue[0], t.queue[i], d.queued[0]);
      }
    }
  }

  /** What was known at some depth stays so. */
  lemma WithinStays(
      web: Web, actorUri: string, limits: Limits, w: Walk, d: Depths, url: Href, n: nat)
    requires !Done(limits, w) && Layered(w, d) && Within(w, d, url, n)
    ensures |NextDepths(web, actorUri, limits, w, d).queued| == |Advance(web, actorUri, limits, w).queue|
    ensures Within(Advance(web, actorUri, limits, w), NextDepths(web, actorUri, limits, w, d), url, n)
  {
    RoundLayers(web, actorUri, limits, w, d);
    QueueGrows(web, actorUri, limits, w);
    hide Advance;
    var t, e := Advance(web, actorUri, limits, w), NextDepths(web, actorUri, limits, w, d);
    if !(url in d.seen && d.seen[url] <= n) {
      var i :| 0 <= i < |w.queue| && w.queue[i] == url && d.queued[i] <= n;
      if i > 0 {
        assert t.queue[i - 1] == w.queue[1..][i - 1] == url && e.queued[i - 1] == d.queued[i];
      }
    } else if url == w.queue[0] && url !in w.seen {
      assert false;
    }
  }

  /** The links of the page just requested are known one deeper than it. */
  lemma LinksWithin(web: Web, actorUri: string, limits: Limits, w: Walk, d: Depths, v: Href)
    requires !Done(limits, w) && Layered(w, d) && w.queue[0] !in w.seen && LinksTo(web, w.queue[0], v)
    ensures |NextDepths(web, actorUri, limits, w, d).queued| == |Advance(web, actorUri, limits, w).queue|
    ensures Within(Advance(web, actorUri, limits, w), NextDepths(web, actorUri, limits, w, d), v, d.queued[0] + 1)
  {
    RoundLayers(web, actorUri, limits, w, d);
    QueueGrows(web, actorUri, limits, w);
    QueueAfter(web, actorUri, limits, w, v);
    hide Advance, LinksTo;
    var t, e := Advance(web, actorUri, limits, w), NextDepths(web, actorUri, limits, w, d);
    if v in w.seen {
      assert d.seen[v] <= d.queued[0];
    } else if v != w.queue[0] {
      var i :| 0 <= i < |t.queue| && t.queue[i] == v;
    }
  }

  lemma RoundSpreads(web: Web, actorUri: string, limits: Limits, roots: seq<Href>, w: Walk, d: Depths)
    requires !Done(limits, w) && Layered(w, d) && DepthsSpread(web, roots, w, d)
    ensures Layered(Advance(web, actorUri, limits, w), NextDepths(web, actorUri, limits, w, d))
    ensures DepthsSpread(web, roots, Advance(web, actorUri, limits, w), NextDepths(web, actorUri, limits, w, d))
  {
    RoundLayers(web, actorUri, limits, w, d);
    QueueGrows(web, actorUri, limits, w);
    hide Advance, LinksTo, Within;
    var t, e := Advance(web, actorUri, limits, w), NextDepths(web, actorUri, limits, w, d);
    forall u | u in roots ensures Within(t, e, u, 1) {
      WithinStays(web, actorUri, limits, w, d, u, 1);
    }
    forall u, v | u in e.seen && LinksTo(web, u, v) ensures Within(t, e, v, e.seen[u] + 1) {
      if u in d.seen {
        WithinStays(web, actorUri, limits, w, d, v, d.seen[u] + 1);
      } else {
        LinksWithin(web, actorUri, limits, w, d, v);
      }
    }
  }

  lemma {:induction false} FinishKeepsBreadth(
      web: Web, actorUri: string, limits: Limits, roots: seq<Href>, w: Walk, d: Depths) returns (e: Depths)
    requires BreadthInv(web, roots, w, d)
    ensures BreadthInv(web, roots, Finish(web, actorUri, limits, w), e)
    decreases if |w.seen| < limits.maxPages then limits.maxPages - |w.seen| else 0, |w.queue|
  {
    e := d;
    if !Done(limits, w) {
      var next := NextDepths(web, actorUri, limits, w, d);
      RoundAttains(web, actorUri, limits, roots, w, d);
      RoundSpreads(web, actorUri, limits, roots, w, d);
      QueueGrows(web, actorUri, limits, w);
      hide Advance, NextDepths, Layered, DepthsAttained, DepthsSpread;
      e := FinishKeepsBreadth(web, actorUri, limits, roots, Advance(web, actorUri, limits, w), next);
    }
  }

  /** A URL already requested is no deeper than anything still queued. */
  lemma SeenIsNoDeeper(w: Walk, d: Depths, url: Href, n: nat)
    requires Layered(w, d) && url in d.seen && Within(w, d, url, n)
    ensures d.seen[url] <= n
  {
  }

  /** Along any path, as far as its pages were requested, depths grow by at most one. */
  lemma {:induction false} DepthAlong(web: Web, roots: seq<Href>, w: Walk, d: Depths, path: seq<Href>, k: nat)
    requires BreadthInv(web, roots, w, d) && IsPath(web, roots, path) && k < |path|
    requires forall j :: 0 <= j < k ==> path[j] in w.seen
    ensures Within(w, d, path[k], k + 1)
  {
    hide LinksTo;
    if k > 0 {
      DepthAlong(web, roots, w, d, path, k - 1);
      assert path[k - 1] in d.seen && LinksTo(web, path[k - 1], path[k]);
      SeenIsNoDeeper(w, d, path[k - 1], k);
      WithinMore(w, d, path[k], d.seen[path[k - 1]] + 1, k + 1);
    }
  }

  lemma WithinMore(w: Walk, d: Depths, url: Href, n: nat, m: nat)
    requires |d.queued| == |w.queue| && Within(w, d, url, n) && n <= m
    ensures Within(w, d, url, m)
  {
  }

  /** The first page of a path that was not requested, for a path that ends in one. */
  lemma {:induction false} FirstUnseen(seen: seq<Href>, path: seq<Href>, n: nat) returns (k: nat)
    requires n < |path| && path[n] !in seen
    ensures k <= n && path[k] !in seen && forall j :: 0 <= j < k ==> path[j] in seen
  {
    k := n;
    if j: nat :| j < n && path[j] !in seen {
      k := FirstUnseen(seen, path, j);
    }
  }

  lemma StartIsLayered(web: Web, roots: seq<Href>)
    ensures BreadthInv(web, roots, Start(roots), Depths(Repeat(1, |roots|), map[]))
  {
    var d := Depths(Repeat(1, |roots|), map[]);
    forall i | 0 <= i < |roots| ensures HasPath(web, roots, roots[i], 1) {
      assert IsPath(web, roots, [roots[i]]);
    }
    forall u | u in roots ensures Within(Start(roots), d, u, 1) {
      var i :| 0 <= i < |roots| && roots[i] == u;
      assert Start(roots).queue[i] == u && d.queued[i] <= 1;
    }
  }

  /**
   Breadth first, whichever cap stops the walk: no page left unrequested is fewer links from the roots than a page
   requested. For every path to an unrequested page there is one no longer to each requested page.
   */
  lemma NearestPagesFirst(
      web: Web, actorUri: string, limits: Limits, roots: seq<Href>, requested: Href, path: seq<Href>)
    returns (nearer: seq<Href>)
    requires requested in Finish(web, actorUri, limits, Start(roots)).seen
    requires IsPath(web, roots, path) && path[|path| - 1] !in Finish(web, actorUri, limits, Start(roots)).seen
    ensures IsPath(web, roots, nearer) && nearer[|nearer| - 1] == requested && |nearer| <= |path|
  {
    StartIsLayered(web, roots);
    var d := FinishKeepsBreadth(web, actorUri, limits, roots, Start(roots), Depths(Repeat(1, |roots|), map[]));
    hide Finish, LinksTo;
    var end := Finish(web, actorUri, limits, Start(roots));
    var k := FirstUnseen(end.seen, path, |path| - 1);
    DepthAlong(web, roots, end, d, path, k);
    var i :| 0 <= i < |end.queue| && end.queue[i] == path[k] && d.queued[i] <= k + 1;
    assert d.seen[requested] <= d.queued[i];
    nearer :| IsPath(web, roots, nearer) && nearer[|nearer| - 1] == requested && |nearer| == d.seen[requested];
  }
}

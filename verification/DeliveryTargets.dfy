/**
 Recipients of an activity and the per-domain delivery groups made of them
 (fedify-sidecar/activitypods-integration/activitypub-recipient-resolution.js;
 sections 7.1 and 7.1.3 of ActivityPub).
 */
module DeliveryTargets {
  import opened Prelude
  import opened JsonTree
  import opened Ordering
  import opened FollowersWalk

  /** What one value of a list contributes to an insertion-ordered set: the set after adding all of them. */
  function Collected<T(==)>(xs: seq<Option<T>>): seq<T> {
    if xs == [] then [] else AddIfAny(Collected(xs[..|xs| - 1]), xs[|xs| - 1])
  }

  lemma {:induction false} CollectedHolds<T>(xs: seq<Option<T>>)
    ensures NoDuplicates(Collected(xs))
    ensures forall u :: u in Collected(xs) <==> Some(u) in xs
  {
    if xs != [] {
      var front, last := xs[..|xs| - 1], xs[|xs| - 1];
      assert xs == front + [last];
      CollectedHolds(front);
      if last.Some? {
        AddKeepsNoDuplicates(Collected(front), last.value);
      }
    }
  }

  // ----- recipients -----

  /** The values of an addressing field: an array's items, or the single value. */
  function FieldValues(activity: Json, name: string): seq<Json> {
    match Field(activity, name)
    case None => []
    case Some(JArray(items)) => items
    case Some(value) => [value]
  }

  function AddressedValues(activity: Json): seq<Json> {
    FieldValues(activity, "to") + FieldValues(activity, "cc")
    + FieldValues(activity, "bto") + FieldValues(activity, "bcc")
  }

  /** The recipient an addressed value stands for; followers collections keep their spelling. */
  function AddressOf(web: Web, followersUris: seq<Href>, value: Json): Option<Href> {
    if !value.JString? then None
    else
      var trimmed := Trim(value.s);
      if trimmed == "" || IsPublicAudience(trimmed) then None
      else if trimmed in followersUris then Some(trimmed)
      else NormalizeUrl(web, Some(JString(trimmed)))
  }

  function TagsOf(container: Option<Json>): seq<Json> {
    if container.Some? && container.value.JObject? then FieldValues(container.value, "tag") else []
  }

  function MentionOf(web: Web, tag: Json): Option<Href> {
    if Field(tag, "type") != Some(JString("Mention")) then None
    else match NormalizeUrl(web, Field(tag, "href"))
      case Some(href) => if IsPublicAudience(href) then None else Some(href)
      case None => None
  }

  function MapMentions(web: Web, tags: seq<Json>): (ms: seq<Option<Href>>)
    ensures |ms| == |tags| && forall i :: 0 <= i < |tags| ==> ms[i] == MentionOf(web, tags[i])
  {
    seq(|tags|, i requires 0 <= i < |tags| => MentionOf(web, tags[i]))
  }

  function MapAddresses(web: Web, followersUris: seq<Href>, values: seq<Json>): (ms: seq<Option<Href>>)
    ensures |ms| == |values| && forall i :: 0 <= i < |values| ==> ms[i] == AddressOf(web, followersUris, values[i])
  {
    seq(|values|, i requires 0 <= i < |values| => AddressOf(web, followersUris, values[i]))
  }

  function Mentions(web: Web, activity: Json): seq<Href> {
    Collected(MapMentions(web, TagsOf(Some(activity)) + TagsOf(Field(activity, "object"))))
  }

  function UnlessFollowers(followersUris: seq<Href>, mentions: seq<Href>): (ms: seq<Option<Href>>)
    ensures |ms| == |mentions|
    ensures forall i :: 0 <= i < |ms| ==> ms[i] == if mentions[i] in followersUris then None else Some(mentions[i])
  {
    seq(|mentions|, i requires 0 <= i < |mentions| =>
      if mentions[i] in followersUris then None else Some(mentions[i]))
  }

  function RecipientUris(web: Web, activity: Json, actorUri: string, actor: Json): seq<Href> {
    var followersUris := FollowersCollectionUris(web, actorUri, actor);
    Collected(MapAddresses(web, followersUris, AddressedValues(activity))
              + UnlessFollowers(followersUris, Mentions(web, activity)))
  }

  /** The field holds the value, alone or in an array. */
  ghost predicate Holds(owner: Json, name: string, value: Json) {
    || (Field(owner, name) == Some(value) && !value.JArray?)
    || exists items :: Field(owner, name) == Some(JArray(items)) && value in items
  }

  /** The value stands for this recipient: no public audience; a followers collection as spelled, any other as a URL. */
  ghost predicate Addresses(web: Web, followersUris: seq<Href>, value: Json, uri: Href) {
    && value.JString? && Trim(value.s) != "" && !Public(Trim(value.s))
    && if Trim(value.s) in followersUris then uri == Trim(value.s) else NormalizesTo(web, Trim(value.s), uri)
  }

  ghost predicate Addressed(web: Web, activity: Json, followersUris: seq<Href>, uri: Href) {
    exists name, value ::
      && (name == "to" || name == "cc" || name == "bto" || name == "bcc")
      && Holds(activity, name, value) && Addresses(web, followersUris, value, uri)
  }

  /** A tag of type Mention whose `href` stands for this URL, not a public one. */
  ghost predicate IsMentionOf(web: Web, tag: Json, uri: Href) {
    && Field(tag, "type") == Some(JString("Mention"))
    && ValueNormalizesTo(web, Field(tag, "href"), uri) && !Public(uri)
  }

  /** The activity or its object carries such a tag. */
  ghost predicate Mentioned(web: Web, activity: Json, uri: Href) {
    exists container, tag ::
      && (container == activity || Field(activity, "object") == Some(container))
      && Holds(container, "tag", tag) && IsMentionOf(web, tag, uri)
  }

  lemma FieldValuesHold(owner: Json, name: string, value: Json)
    ensures value in FieldValues(owner, name) <==> Holds(owner, name, value)
  {
  }

  lemma AddressOfIs(web: Web, followersUris: seq<Href>, value: Json, uri: Href)
    ensures AddressOf(web, followersUris, value) == Some(uri) <==> Addresses(web, followersUris, value, uri)
  {
    hide NormalizeUrl, IsPublicAudience, Trim, NormalizesTo, Public;
    if value.JString? {
      PublicIs(Trim(value.s));
      NormalizeUrlIs(web, Some(JString(Trim(value.s))), uri);
    }
  }

  lemma MentionOfIs(web: Web, tag: Json, uri: Href)
    ensures MentionOf(web, tag) == Some(uri) <==> IsMentionOf(web, tag, uri)
  {
    hide NormalizeUrl, IsPublicAudience, ValueNormalizesTo, Public;
    PublicIs(uri);
    NormalizeUrlIs(web, Field(tag, "href"), uri);
  }

  lemma AddressedIff(web: Web, activity: Json, followersUris: seq<Href>, uri: Href)
    ensures Addressed(web, activity, followersUris, uri)
       <==> exists value :: value in AddressedValues(activity) && AddressOf(web, followersUris, value) == Some(uri)
  {
    hide FieldValues, Holds, AddressOf, Addresses;
    forall name, value ensures value in FieldValues(activity, name) <==> Holds(activity, name, value) {
      FieldValuesHold(activity, name, value);
    }
    forall value
      ensures AddressOf(web, followersUris, value) == Some(uri) <==> Addresses(web, followersUris, value, uri)
    {
      AddressOfIs(web, followersUris, value, uri);
    }
  }

  lemma TagsHold(container: Option<Json>, tag: Json)
    ensures tag in TagsOf(container) <==> container.Some? && Holds(container.value, "tag", tag)
  {
    if container.Some? {
      FieldValuesHold(container.value, "tag", tag);
    }
  }

  lemma MentionedIff(web: Web, activity: Json, uri: Href)
    ensures Mentioned(web, activity, uri)
       <==> exists tag :: tag in TagsOf(Some(activity)) + TagsOf(Field(activity, "object"))
                          && MentionOf(web, tag) == Some(uri)
  {
    hide TagsOf, Holds, MentionOf, IsMentionOf;
    forall container, tag
      ensures tag in TagsOf(container) <==> container.Some? && Holds(container.value, "tag", tag)
    {
      TagsHold(container, tag);
    }
    forall tag ensures MentionOf(web, tag) == Some(uri) <==> IsMentionOf(web, tag, uri) {
      MentionOfIs(web, tag, uri);
    }
    if tag :| tag in TagsOf(Some(activity)) + TagsOf(Field(activity, "object")) && MentionOf(web, tag) == Some(uri) {
      assert Holds(activity, "tag", tag) || Holds(Field(activity, "object").value, "tag", tag);
    }
  }

  lemma AddressesHold(web: Web, activity: Json, followersUris: seq<Href>, uri: Href)
    ensures Some(uri) in MapAddresses(web, followersUris, AddressedValues(activity))
       <==> Addressed(web, activity, followersUris, uri)
  {
    var values := AddressedValues(activity);
    var addresses := MapAddresses(web, followersUris, values);
    AddressedIff(web, activity, followersUris, uri);
    hide AddressOf, Addressed, AddressedValues;
    if Addressed(web, activity, followersUris, uri) {
      var k :| 0 <= k < |values| && AddressOf(web, followersUris, values[k]) == Some(uri);
      assert addresses[k] == Some(uri);
    }
  }

  lemma MentionsHold(web: Web, activity: Json, uri: Href)
    ensures uri in Mentions(web, activity) <==> Mentioned(web, activity, uri)
  {
    var tags := TagsOf(Some(activity)) + TagsOf(Field(activity, "object"));
    var mentions := MapMentions(web, tags);
    CollectedHolds(mentions);
    MentionedIff(web, activity, uri);
    hide MentionOf, Mentioned, TagsOf;
    if Mentioned(web, activity, uri) {
      var k :| 0 <= k < |tags| && MentionOf(web, tags[k]) == Some(uri);
      assert mentions[k] == Some(uri);
    }
  }

  /** The recipients, each once, are what the four fields address and what the tags mention besides followers. */
  lemma RecipientsAre(web: Web, activity: Json, actorUri: string, actor: Json, uri: Href)
    ensures NoDuplicates(RecipientUris(web, activity, actorUri, actor))
    ensures var followersUris := FollowersCollectionUris(web, actorUri, actor);
            uri in RecipientUris(web, activity, actorUri, actor)
            <==> Addressed(web, activity, followersUris, uri)
                 || (Mentioned(web, activity, uri) && uri !in followersUris)
  {
    hide Addressed, Mentioned, AddressedValues, FollowersCollectionUris;
    var followersUris := FollowersCollectionUris(web, actorUri, actor);
    var addresses := MapAddresses(web, followersUris, AddressedValues(activity));
    var mentions := Mentions(web, activity);
    var kept := UnlessFollowers(followersUris, mentions);
    AddressesHold(web, activity, followersUris, uri);
    MentionsHold(web, activity, uri);
    CollectedHolds(addresses + kept);
    assert Some(uri) in addresses + kept <==> Some(uri) in addresses || Some(uri) in kept;
    if uri in mentions && uri !in followersUris {
      var k :| 0 <= k < |mentions| && mentions[k] == uri;
      assert kept[k] == Some(uri);
    }
  }

  /** A string that passes the public filter as spelled, names no followers collection, and normalises to this URI. */
  ghost predicate SlipsPast(web: Web, followersUris: seq<Href>, value: Json, uri: Href) {
    && value.JString?
    && !Public(Trim(value.s)) && Trim(value.s) !in followersUris && NormalizesTo(web, Trim(value.s), uri)
  }

  lemma PublicAddressIff(web: Web, followersUris: seq<Href>, value: Json, uri: Href)
    requires Public(uri)
    ensures Addresses(web, followersUris, value, uri) <==> SlipsPast(web, followersUris, value, uri)
  {
    assert Trim("") == "";
    hide Trim;
  }

  /**
   The public audience is filtered from the fields as spelled, not as normalised: it becomes a recipient exactly when
   some addressed string, neither spelled public nor naming a followers collection, normalises to it.
   */
  lemma PublicRecipientIff(web: Web, activity: Json, actorUri: string, actor: Json, uri: Href)
    requires Public(uri)
    ensures var followersUris := FollowersCollectionUris(web, actorUri, actor);
            uri in RecipientUris(web, activity, actorUri, actor)
            <==> exists name, value ::
                   && (name == "to" || name == "cc" || name == "bto" || name == "bcc")
                   && Holds(activity, name, value) && SlipsPast(web, followersUris, value, uri)
  {
    hide RecipientUris, SlipsPast, FollowersCollectionUris, Addresses, Holds, Public;
    var followersUris := FollowersCollectionUris(web, actorUri, actor);
    RecipientsAre(web, activity, actorUri, actor, uri);
    assert !Mentioned(web, activity, uri);
    forall value
      ensures Addresses(web, followersUris, value, uri) <==> SlipsPast(web, followersUris, value, uri)
    {
      PublicAddressIff(web, followersUris, value, uri);
    }
  }

  lemma TrimKeeps(s: string)
    requires s != "" && !IsSpace(s[0]) && !IsSpace(s[|s| - 1])
    ensures Trim(s) == s
  {
  }

  /** The public audience with an upper-case scheme, which URL parsing normalises away, becomes a recipient. */
  lemma PublicSlipsIn(web: Web, actorUri: string, actor: Json)
    requires web.parse("HTTPS://www.w3.org/ns/activitystreams#Public")
          == Some(ParsedUrl("https:", "www.w3.org", "https://www.w3.org/ns/activitystreams#Public"))
    requires "HTTPS://www.w3.org/ns/activitystreams#Public" !in FollowersCollectionUris(web, actorUri, actor)
    ensures var activity := JObject(map["to" := JString("HTTPS://www.w3.org/ns/activitystreams#Public")]);
            "https://www.w3.org/ns/activitystreams#Public" in RecipientUris(web, activity, actorUri, actor)
  {
    var spelled := "HTTPS://www.w3.org/ns/activitystreams#Public";
    var public := "https://www.w3.org/ns/activitystreams#Public";
    var activity := JObject(map["to" := JString(spelled)]);
    TrimKeeps(spelled);
    assert spelled[0] == 'H' && public[0] == 'h' && |spelled| == 44;
    var followersUris := FollowersCollectionUris(web, actorUri, actor);
    assert Addresses(web, followersUris, JString(spelled), public);
    assert Holds(activity, "to", JString(spelled));
    RecipientsAre(web, activity, actorUri, actor, public);
  }

  // ----- resolution -----

  /** Answers of the local actor service; None when the call fails. */
  datatype Directory = Directory(isLocal: Href -> Option<bool>, get: Href -> Option<Json>)

  datatype Target = Target(recipientUri: Href, targetDomain: string, inboxUrl: Href, sharedInboxUrl: Option<Href>)

  function DeliveryUrl(t: Target): Href {
    if t.sharedInboxUrl.Some? then t.sharedInboxUrl.value else t.inboxUrl
  }

  function SharedOf(web: Web, doc: Json): Option<Href> {
    match Field(doc, "endpoints")
    case None => None
    case Some(endpoints) => NormalizeUrl(web, Field(endpoints, "sharedInbox"))
  }

  /** The target of one recipient: none if local, unknown, without a valid inbox, or on any failed call. */
  function ResolveOne(web: Web, dir: Directory, uri: Href): Option<Target> {
    if dir.isLocal(uri) != Some(false) then None
    else match dir.get(uri)
      case None => None
      case Some(doc) =>
        var inbox := NormalizeUrl(web, Field(doc, "inbox"));
        var shared := SharedOf(web, doc);
        if inbox.None? then None
        else match web.parse(if shared.Some? then shared.value else inbox.value)
          case None => None
          case Some(url) => Some(Target(uri, Lower(url.hostname), inbox.value, shared))
  }

  const DEFAULT_LIMITS := Limits(10, 5000)

  function Expand(web: Web, actorUri: string, actor: Json, limits: Limits, uri: Href): seq<Href> {
    var followersUris := FollowersCollectionUris(web, actorUri, actor);
    if uri in followersUris then Finish(web, actorUri, limits, Start(followersUris)).actorUris else [uri]
  }

  function ActorRecipients(web: Web, actorUri: string, actor: Json, limits: Limits, uris: seq<Href>): seq<Href> {
    if uris == [] then []
    else AddAll(ActorRecipients(web, actorUri, actor, limits, uris[..|uris| - 1]),
                Expand(web, actorUri, actor, limits, uris[|uris| - 1]))
  }

  function Resolve(web: Web, dir: Directory, uris: seq<Href>): seq<Target> {
    if uris == [] then []
    else
      var last := ResolveOne(web, dir, uris[|uris| - 1]);
      Resolve(web, dir, uris[..|uris| - 1]) + if last.Some? then [last.value] else []
  }

  function Key(t: Target): string {
    t.targetDomain + "|" + DeliveryUrl(t)
  }

  function Keys(ts: seq<Target>): (ks: seq<string>)
    ensures |ks| == |ts| && forall i :: 0 <= i < |ts| ==> ks[i] == Key(ts[i])
  {
    seq(|ts|, i requires 0 <= i < |ts| => Key(ts[i]))
  }

  /** The first target of each key. */
  function FirstOfKey(ts: seq<Target>): seq<Target> {
    if ts == [] then []
    else
      var kept, last := FirstOfKey(ts[..|ts| - 1]), ts[|ts| - 1];
      if Key(last) in Keys(kept) then kept else kept + [last]
  }

  /** `localeCompare(...) <= 0` on keys. */
  function ByKey(locale: (string, string) -> bool): (Target, Target) -> bool {
    (a: Target, b: Target) => locale(Key(a), Key(b))
  }

  function Dedupe(locale: (string, string) -> bool, ts: seq<Target>): seq<Target> {
    Sort(ByKey(locale), FirstOfKey(ts))
  }

  /** `resolveDeliveryTargets` as a function of the activity and the outside world. */
  function Targets(
      web: Web, dir: Directory, locale: (string, string) -> bool, actorUri: string, actor: Json, activity: Json)
    : seq<Target>
  {
    var recipients := RecipientUris(web, activity, actorUri, actor);
    Dedupe(locale, Resolve(web, dir, ActorRecipients(web, actorUri, actor, DEFAULT_LIMITS, recipients)))
  }

  // ----- groups -----

  datatype Group = Group(actor: string, targetDomain: string, recipients: seq<string>, sharedInbox: Option<Href>)

  function DomainOf(t: Target): string {
    Lower(t.targetDomain)
  }

  function GroupIndex(groups: seq<Group>, domain: string): (i: nat)
    ensures i <= |groups|
    ensures i < |groups| ==> groups[i].targetDomain == domain
    ensures i == |groups| ==> forall j :: 0 <= j < |groups| ==> groups[j].targetDomain != domain
  {
    if groups == [] then 0
    else if groups[0].targetDomain == domain then 0
    else 1 + GroupIndex(groups[1..], domain)
  }

  function Place(actorUri: string, groups: seq<Group>, t: Target): seq<Group> {
    var domain := DomainOf(t);
    if domain == "" then groups
    else
      var i := GroupIndex(groups, domain);
      if i == |groups| then groups + [Group(actorUri, domain, [DeliveryUrl(t)], t.sharedInboxUrl)]
      else
        var g := groups[i];
        groups[i := g.(recipients := Add(g.recipients, DeliveryUrl(t)),
                       sharedInbox := if g.sharedInbox.Some? then g.sharedInbox else t.sharedInboxUrl)]
  }

  function Grouped(actorUri: string, ts: seq<Target>): seq<Group> {
    if ts == [] then [] else Place(actorUri, Grouped(actorUri, ts[..|ts| - 1]), ts[|ts| - 1])
  }

  function Finalize(g: Group): Group {
    g.(recipients := Sort(LexLeq, g.recipients),
       sharedInbox := if g.sharedInbox.Some? && g.sharedInbox.value in g.recipients then g.sharedInbox else None)
  }

  function FinalizeAll(groups: seq<Group>): (fs: seq<Group>)
    ensures |fs| == |groups| && forall i :: 0 <= i < |fs| ==> fs[i] == Finalize(groups[i])
  {
    seq(|groups|, i requires 0 <= i < |groups| => Finalize(groups[i]))
  }

  function ByDomain(locale: (string, string) -> bool): (Group, Group) -> bool {
    (a: Group, b: Group) => locale(a.targetDomain, b.targetDomain)
  }

  function GroupByDomain(locale: (string, string) -> bool, actorUri: string, ts: seq<Target>): seq<Group> {
    Sort(ByDomain(locale), FinalizeAll(Grouped(actorUri, ts)))
  }

  // ----- the source's loops -----

  lemma CollectedAppended<T>(xs: seq<Option<T>>, x: Option<T>)
    ensures Collected(xs + [x]) == AddIfAny(Collected(xs), x)
  {
    assert (xs + [x])[..|xs|] == xs;
  }

  /** The inner loop of `extractMentionUris`: the tags of one container. */
  method AddMentions(web: Web, ghost prior: seq<Json>, before: seq<Href>, tags: seq<Json>) returns (mentions: seq<Href>)
    requires before == Collected(MapMentions(web, prior))
    ensures mentions == Collected(MapMentions(web, prior + tags))
  {
    mentions := before;
    assert prior + tags[..0] == prior;
    hide Collected, MentionOf;
    for i := 0 to |tags|
      invariant mentions == Collected(MapMentions(web, prior + tags[..i]))
    {
      var href := MentionOf(web, tags[i]);
      assert MapMentions(web, prior + tags[..i + 1]) == MapMentions(web, prior + tags[..i]) + [href];
      CollectedAppended(MapMentions(web, prior + tags[..i]), href);
      if href.Some? {
        mentions := Add(mentions, href.value);
      }
    }
    assert tags[..|tags|] == tags;
  }

  method ExtractMentionUris(web: Web, activity: Json) returns (mentions: seq<Href>)
    ensures mentions == Mentions(web, activity)
  {
    var own, objects := TagsOf(Some(activity)), TagsOf(Field(activity, "object"));
    mentions := AddMentions(web, [], [], own);
    assert [] + own == own;
    mentions := AddMentions(web, own, mentions, objects);
  }

  /** The loop over one addressing field. */
  method AddAddresses(web: Web, followersUris: seq<Href>, ghost prior: seq<Json>, before: seq<Href>, values: seq<Json>)
    returns (recipients: seq<Href>)
    requires before == Collected(MapAddresses(web, followersUris, prior))
    ensures recipients == Collected(MapAddresses(web, followersUris, prior + values))
  {
    recipients := before;
    assert prior + values[..0] == prior;
    hide Collected, NormalizeUrl, IsPublicAudience, Trim;
    for i := 0 to |values|
      invariant recipients == Collected(MapAddresses(web, followersUris, prior + values[..i]))
    {
      var address := AddressOf(web, followersUris, values[i]);
      assert MapAddresses(web, followersUris, prior + values[..i + 1])
          == MapAddresses(web, followersUris, prior + values[..i]) + [address];
      CollectedAppended(MapAddresses(web, followersUris, prior + values[..i]), address);
      if !values[i].JString? {
        continue;
      }
      var trimmed := Trim(values[i].s);
      if trimmed == "" || IsPublicAudience(trimmed) {
        continue;
      }
      if trimmed in followersUris {
        recipients := Add(recipients, trimmed);
        continue;
      }
      var normalized := NormalizeUrl(web, Some(JString(trimmed)));
      if normalized.Some? {
        recipients := Add(recipients, normalized.value);
      }
    }
    assert values[..|values|] == values;
  }

  const ADDRESSING_FIELDS: seq<string> := ["to", "cc", "bto", "bcc"]

  /** The loop over the addressing fields. */
  method AddressesIn(web: Web, followersUris: seq<Href>, activity: Json, fields: seq<string>)
    returns (recipients: seq<Href>)
    ensures recipients == Collected(MapAddresses(web, followersUris, ValuesOf(activity, fields)))
  {
    recipients := [];
    assert ValuesOf(activity, fields[..0]) == [];
    assert recipients == Collected(MapAddresses(web, followersUris, []));
    hide Collected, FieldValues, AddressOf, MapAddresses, ValuesOf;
    for k := 0 to |fields|
      invariant recipients == Collected(MapAddresses(web, followersUris, ValuesOf(activity, fields[..k])))
    {
      ValuesStep(activity, fields, k);
      var values := FieldValues(activity, fields[k]);
      recipients := AddAddresses(web, followersUris, ValuesOf(activity, fields[..k]), recipients, values);
    }
    assert fields[..|fields|] == fields;
  }

  lemma ValuesStep(activity: Json, fields: seq<string>, k: nat)
    requires k < |fields|
    ensures ValuesOf(activity, fields[..k + 1]) == ValuesOf(activity, fields[..k]) + FieldValues(activity, fields[k])
  {
    hide FieldValues;
    assert fields[..k + 1][..k] == fields[..k];
  }

  method ExtractRecipientUris(web: Web, activity: Json, actorUri: string, actor: Json) returns (recipients: seq<Href>)
    ensures recipients == RecipientUris(web, activity, actorUri, actor)
  {
    hide Collected, MapAddresses, AddressedValues, FollowersCollectionUris, Mentions, UnlessFollowers;
    var followersUris := FollowersCollectionUris(web, actorUri, actor);
    FourFields(activity);
    recipients := AddressesIn(web, followersUris, activity, ADDRESSING_FIELDS);
    var mentions := ExtractMentionUris(web, activity);
    recipients := AddUnlessFollowers(
      followersUris, MapAddresses(web, followersUris, AddressedValues(activity)), recipients, mentions);
  }

  /** The values of several addressing fields. */
  ghost function ValuesOf(activity: Json, fields: seq<string>): seq<Json> {
    if fields == [] then []
    else ValuesOf(activity, fields[..|fields| - 1]) + FieldValues(activity, fields[|fields| - 1])
  }

  lemma FourFields(activity: Json)
    ensures ValuesOf(activity, ADDRESSING_FIELDS) == AddressedValues(activity)
  {
    hide FieldValues;
    var fields := ADDRESSING_FIELDS;
    assert fields[..0] == [] && fields[..4] == fields;
    ValuesStep(activity, fields, 0);
    ValuesStep(activity, fields, 1);
    ValuesStep(activity, fields, 2);
    ValuesStep(activity, fields, 3);
  }

  lemma UnlessStep(followersUris: seq<Href>, addresses: seq<Option<Href>>, mentions: seq<Href>, i: nat)
    requires i < |mentions|
    ensures var kept := if mentions[i] in followersUris then None else Some(mentions[i]);
            addresses + UnlessFollowers(followersUris, mentions[..i + 1])
            == (addresses + UnlessFollowers(followersUris, mentions[..i])) + [kept]
  {
    var kept := if mentions[i] in followersUris then None else Some(mentions[i]);
    assert UnlessFollowers(followersUris, mentions[..i + 1]) == UnlessFollowers(followersUris, mentions[..i]) + [kept];
  }

  /** The last loop: mentions that name no followers collection. */
  method AddUnlessFollowers(
      followersUris: seq<Href>, ghost addresses: seq<Option<Href>>, before: seq<Href>, mentions: seq<Href>)
    returns (recipients: seq<Href>)
    requires before == Collected(addresses)
    ensures recipients == Collected(addresses + UnlessFollowers(followersUris, mentions))
  {
    recipients := before;
    assert addresses + UnlessFollowers(followersUris, mentions[..0]) == addresses;
    hide Collected, UnlessFollowers;
    for i := 0 to |mentions|
      invariant recipients == Collected(addresses + UnlessFollowers(followersUris, mentions[..i]))
    {
      UnlessStep(followersUris, addresses, mentions, i);
      ghost var kept := if mentions[i] in followersUris then None else Some(mentions[i]);
      CollectedAppended(addresses + UnlessFollowers(followersUris, mentions[..i]), kept);
      if mentions[i] !in followersUris {
        recipients := Add(recipients, mentions[i]);
      }
    }
    assert mentions[..|mentions|] == mentions;
  }

  method ResolveDeliveryTargets(
      web: Web, dir: Directory, locale: (string, string) -> bool, actorUri: string, actor: Json, activity: Json)
    returns (deduped: seq<Target>)
    ensures deduped == Targets(web, dir, locale, actorUri, actor, activity)
  {
    var explicitRecipients := ExtractRecipientUris(web, activity, actorUri, actor);
    var actorRecipients := ExpandRecipients(web, actorUri, actor, explicitRecipients);
    var targets := ResolveEach(web, dir, actorRecipients);
    deduped := DeduplicateTargets(locale, targets);
  }

  /** The second loop: recipients that are remote and resolve become targets. */
  method ResolveEach(web: Web, dir: Directory, uris: seq<Href>) returns (targets: seq<Target>)
    ensures targets == Resolve(web, dir, uris)
  {
    targets := [];
    var i := 0;
    while i < |uris|
      invariant i <= |uris|
      invariant targets == Resolve(web, dir, uris[..i])
    {
      assert uris[..i + 1][..i] == uris[..i];
      var target := ResolveOne(web, dir, uris[i]);
      if target.Some? {
        targets := targets + [target.value];
      }
      i := i + 1;
    }
    assert uris[..i] == uris;
  }

  /** The first loop: a followers collection is replaced by its actors. */
  method ExpandRecipients(web: Web, actorUri: string, actor: Json, uris: seq<Href>)
    returns (actorRecipients: seq<Href>)
    ensures actorRecipients == ActorRecipients(web, actorUri, actor, DEFAULT_LIMITS, uris)
  {
    var followersUris := FollowersCollectionUris(web, actorUri, actor);
    actorRecipients := [];
    var i := 0;
    while i < |uris|
      invariant i <= |uris|
      invariant actorRecipients == ActorRecipients(web, actorUri, actor, DEFAULT_LIMITS, uris[..i])
    {
      assert uris[..i + 1][..i] == uris[..i];
      var expanded := [uris[i]];
      if uris[i] in followersUris {
        var followers, _ := FetchFollowersActorUris(web, actorUri, actor, DEFAULT_LIMITS);
        expanded := followers;
      }
      actorRecipients := AddEach(actorRecipients, expanded);
      i := i + 1;
    }
    assert uris[..i] == uris;
  }

  method AddEach<T(==)>(before: seq<T>, xs: seq<T>) returns (s: seq<T>)
    ensures s == AddAll(before, xs)
  {
    s := before;
    var i := 0;
    while i < |xs|
      invariant i <= |xs|
      invariant s == AddAll(before, xs[..i])
    {
      assert xs[..i + 1][..i] == xs[..i];
      s := Add(s, xs[i]);
      i := i + 1;
    }
    assert xs[..i] == xs;
  }

  method DeduplicateTargets(locale: (string, string) -> bool, targets: seq<Target>) returns (deduped: seq<Target>)
    ensures deduped == Dedupe(locale, targets)
  {
    var seen: set<string> := {};
    deduped := [];
    var i := 0;
    while i < |targets|
      invariant i <= |targets|
      invariant deduped == FirstOfKey(targets[..i])
      invariant forall k :: k in seen <==> k in Keys(deduped)
    {
      assert targets[..i + 1][..i] == targets[..i];
      var target := targets[i];
      if Key(target) !in seen {
        assert Keys(deduped + [target]) == Keys(deduped) + [Key(target)];
        seen := seen + {Key(target)};
        deduped := deduped + [target];
      }
      i := i + 1;
    }
    assert targets[..i] == targets;
    deduped := Sort(ByKey(locale), deduped);
  }

  method GroupTargetsByDomain(locale: (string, string) -> bool, actorUri: string, targets: seq<Target>)
    returns (groups: seq<Group>)
    ensures groups == GroupByDomain(locale, actorUri, targets)
  {
    var grouped: seq<Group> := [];
    var i := 0;
    while i < |targets|
      invariant i <= |targets|
      invariant grouped == Grouped(actorUri, targets[..i])
    {
      assert targets[..i + 1][..i] == targets[..i];
      var target := targets[i];
      i := i + 1;
      var domain := DomainOf(target);
      if domain == "" {
        continue;
      }
      ghost var placed := Place(actorUri, grouped, target);
      var at := GroupIndex(grouped, domain);
      if at == |grouped| {
        grouped := grouped + [Group(actorUri, domain, [], None)];
      }
      var group := grouped[at];
      var shared := group.sharedInbox;
      if target.sharedInboxUrl.Some? && shared.None? {
        shared := target.sharedInboxUrl;
      }
      var recipients := Add(group.recipients, DeliveryUrl(target));
      assert group.recipients == [] ==> recipients == [DeliveryUrl(target)];
      grouped := grouped[at := group.(recipients := recipients, sharedInbox := shared)];
      assert grouped == placed;
    }
    assert targets[..i] == targets;
    groups := Sort(ByDomain(locale), FinalizeAll(grouped));
  }

  // ----- endpoints survive resolution, deduplication and grouping -----

  /** The domains a URL parser returns cannot contain U+007C, a forbidden host code point of the URL Standard. */
  ghost predicate HostnamesHaveNoBar(web: Web) {
    forall text :: web.parse(text).Some? ==> '|' !in web.parse(text).value.hostname
  }

  /** The target is delivered to at this domain and URL: its shared inbox, or its inbox if it has none. */
  ghost predicate GoesTo(t: Target, domain: string, url: string) {
    && domain == Lower(t.targetDomain)
    && url == if t.sharedInboxUrl.Some? then t.sharedInboxUrl.value else t.inboxUrl
  }

  ghost predicate HasTarget(ts: seq<Target>, domain: string, url: string) {
    exists t :: t in ts && GoesTo(t, domain, url)
  }

  /** The first shared inbox the targets of a domain offer, if any does. */
  ghost predicate FirstOffered(ts: seq<Target>, domain: string, shared: Option<Href>) {
    match shared
    case None => forall t :: t in ts && Lower(t.targetDomain) == domain ==> t.sharedInboxUrl.None?
    case Some(_) =>
      exists i :: 0 <= i < |ts| && Lower(ts[i].targetDomain) == domain && ts[i].sharedInboxUrl == shared
        && forall j :: 0 <= j < i && Lower(ts[j].targetDomain) == domain ==> ts[j].sharedInboxUrl.None?
  }

  /** One group per domain, holding delivery URLs once each, its shared inbox among them. */
  ghost predicate GroupsInv(groups: seq<Group>) {
    && (forall i, j :: 0 <= i < j < |groups| ==> groups[i].targetDomain != groups[j].targetDomain)
    && (forall g :: g in groups ==> GroupInv(g))
  }

  ghost predicate GroupInv(g: Group) {
    && g.targetDomain != ""
    && g.recipients != []
    && NoDuplicates(g.recipients)
    && (g.sharedInbox.Some? ==> g.sharedInbox.value in g.recipients)
  }

  ghost predicate Endpoint(groups: seq<Group>, domain: string, url: string) {
    exists g :: g in groups && g.targetDomain == domain && url in g.recipients
  }

  lemma PlaceKeepsGroups(actorUri: string, groups: seq<Group>, t: Target)
    requires GroupsInv(groups)
    ensures GroupsInv(Place(actorUri, groups, t))
  {
    var domain, placed := DomainOf(t), Place(actorUri, groups, t);
    if domain != "" {
      var i := GroupIndex(groups, domain);
      if i < |groups| {
        assert groups[i] in groups;
        AddKeepsNoDuplicates(groups[i].recipients, DeliveryUrl(t));
      }
      forall k | 0 <= k < |placed| ensures GroupInv(placed[k]) {
        if k != i {
          assert placed[k] in groups;
        }
      }
    }
  }

  lemma PlaceAddsEndpoint(actorUri: string, groups: seq<Group>, t: Target, domain: string, url: string)
    requires GroupsInv(groups)
    ensures Endpoint(Place(actorUri, groups, t), domain, url)
       <==> Endpoint(groups, domain, url) || (domain != "" && DomainOf(t) == domain && DeliveryUrl(t) == url)
  {
    var placed := Place(actorUri, groups, t);
    var i := GroupIndex(groups, DomainOf(t));
    if DomainOf(t) != "" {
      assert placed[i] in placed && placed[i].targetDomain == DomainOf(t) && DeliveryUrl(t) in placed[i].recipients;
      if Endpoint(groups, domain, url) {
        var k :| 0 <= k < |groups| && groups[k].targetDomain == domain && url in groups[k].recipients;
        assert placed[k] in placed && url in placed[k].recipients && placed[k].targetDomain == domain;
      }
      if Endpoint(placed, domain, url) {
        var k :| 0 <= k < |placed| && placed[k].targetDomain == domain && url in placed[k].recipients;
        if k != i {
          assert placed[k] in groups;
        } else if i < |groups| {
          assert groups[i] in groups;
        }
      }
    }
  }

  lemma {:induction false} GroupedEndpoints(actorUri: string, ts: seq<Target>, domain: string, url: string)
    ensures GroupsInv(Grouped(actorUri, ts))
    ensures Endpoint(Grouped(actorUri, ts), domain, url) <==> domain != "" && HasTarget(ts, domain, url)
  {
    if ts != [] {
      var front, last := ts[..|ts| - 1], ts[|ts| - 1];
      assert ts == front + [last];
      GroupedEndpoints(actorUri, front, domain, url);
      PlaceKeepsGroups(actorUri, Grouped(actorUri, front), last);
      PlaceAddsEndpoint(actorUri, Grouped(actorUri, front), last, domain, url);
      assert HasTarget(ts, domain, url)
        <==> HasTarget(front, domain, url) || GoesTo(last, domain, url);
    }
  }

  lemma OfferGoesOn(ts: seq<Target>, t: Target, domain: string, shared: Option<Href>)
    requires FirstOffered(ts, domain, shared)
    ensures FirstOffered(ts + [t], domain,
                         if shared.None? && Lower(t.targetDomain) == domain then t.sharedInboxUrl else shared)
  {
    hide Lower;
    var us := ts + [t];
    if shared.Some? {
      var i :| 0 <= i < |ts| && Lower(ts[i].targetDomain) == domain && ts[i].sharedInboxUrl == shared
               && forall j :: 0 <= j < i && Lower(ts[j].targetDomain) == domain ==> ts[j].sharedInboxUrl.None?;
      assert us[i] == ts[i];
    } else if Lower(t.targetDomain) == domain && t.sharedInboxUrl.Some? {
      assert us[|ts|] == t;
      assert forall j :: 0 <= j < |ts| ==> us[j] in ts;
    }
  }

  /** Each group has the first shared inbox its targets offer, and bears the sending actor. */
  lemma {:induction false} GroupedShared(actorUri: string, ts: seq<Target>)
    ensures forall g :: g in Grouped(actorUri, ts) ==>
              g.actor == actorUri && FirstOffered(ts, g.targetDomain, g.sharedInbox)
  {
    if ts != [] {
      var front, last := ts[..|ts| - 1], ts[|ts| - 1];
      assert ts == front + [last];
      GroupedShared(actorUri, front);
      var before, after := Grouped(actorUri, front), Grouped(actorUri, ts);
      assert after == Place(actorUri, before, last);
      GroupedEndpoints(actorUri, front, "", "");
      hide Lower, FirstOffered, Add, Grouped;
      forall k | 0 <= k < |after| ensures after[k].actor == actorUri
      ensures FirstOffered(ts, after[k].targetDomain, after[k].sharedInbox) {
        if k < |before| {
          assert before[k] in before;
          OfferGoesOn(front, last, before[k].targetDomain, before[k].sharedInbox);
        } else {
          NoneOfDomain(actorUri, front, DomainOf(last));
          OfferGoesOn(front, last, DomainOf(last), None);
        }
      }
    }
  }

  lemma GroupOfTarget(actorUri: string, ts: seq<Target>, t: Target)
    requires t in ts && DomainOf(t) != ""
    ensures GroupIndex(Grouped(actorUri, ts), DomainOf(t)) < |Grouped(actorUri, ts)|
  {
    assert GoesTo(t, DomainOf(t), DeliveryUrl(t));
    GroupedEndpoints(actorUri, ts, DomainOf(t), DeliveryUrl(t));
  }

  lemma NoneOfDomain(actorUri: string, ts: seq<Target>, domain: string)
    requires domain != "" && GroupIndex(Grouped(actorUri, ts), domain) == |Grouped(actorUri, ts)|
    ensures FirstOffered(ts, domain, None)
  {
    hide Lower, Grouped;
    forall t | t in ts ensures DomainOf(t) != domain {
      if DomainOf(t) != "" {
        GroupOfTarget(actorUri, ts, t);
      }
    }
  }

  lemma FinalizeKeepsGroup(g: Group)
    requires GroupInv(g)
    ensures GroupInv(Finalize(g)) && SortedBy(LexLeq, Finalize(g).recipients)
    ensures forall url :: url in Finalize(g).recipients <==> url in g.recipients
    ensures Finalize(g).sharedInbox == g.sharedInbox
  {
    LexLeqIsTotalOrder();
    SortSorts(LexLeq, g.recipients);
    SortKeepsNoDuplicates(LexLeq, g.recipients);
    assert g.recipients[0] in Finalize(g).recipients;
  }

  lemma ByDomainIsPreorder(locale: (string, string) -> bool)
    requires TotalOrder(locale)
    ensures TotalPreorder(ByDomain(locale))
  {
    var leq := ByDomain(locale);
    forall x: Group, y: Group ensures leq(x, y) || leq(y, x) {
      assert locale(x.targetDomain, y.targetDomain) || locale(y.targetDomain, x.targetDomain);
    }
    forall x: Group, y: Group, z: Group | leq(x, y) && leq(y, z) ensures leq(x, z) {
      assert locale(x.targetDomain, y.targetDomain) && locale(y.targetDomain, z.targetDomain);
    }
  }

  lemma ByKeyIsPreorder(locale: (string, string) -> bool)
    requires TotalOrder(locale)
    ensures TotalPreorder(ByKey(locale))
  {
    var leq := ByKey(locale);
    forall x: Target, y: Target ensures leq(x, y) || leq(y, x) {
      assert locale(Key(x), Key(y)) || locale(Key(y), Key(x));
    }
    forall x: Target, y: Target, z: Target | leq(x, y) && leq(y, z) ensures leq(x, z) {
      assert locale(Key(x), Key(y)) && locale(Key(y), Key(z));
    }
  }

  /**
   The groups hold exactly the (domain, delivery URL) pairs of the targets, one group per domain in domain
   order, each URL once in code-unit order. A group bears the sending actor and the first shared inbox that one of its
   targets offers, which is among its recipients.
   */
  lemma GroupsAre(locale: (string, string) -> bool, actorUri: string, ts: seq<Target>)
    requires TotalOrder(locale)
    ensures var groups := GroupByDomain(locale, actorUri, ts);
            && GroupsInv(groups)
            && (forall i, j :: 0 <= i < j < |groups| ==> locale(groups[i].targetDomain, groups[j].targetDomain))
            && (forall g, i, j :: g in groups && 0 <= i < j < |g.recipients| ==>
                  InCodeOrder(g.recipients[i], g.recipients[j]))
            && (forall g :: g in groups ==> g.actor == actorUri && FirstOffered(ts, g.targetDomain, g.sharedInbox))
            && (forall domain, url :: Endpoint(groups, domain, url) <==> domain != "" && HasTarget(ts, domain, url))
  {
    var raw := Grouped(actorUri, ts);
    var all := FinalizeAll(raw);
    var groups := GroupByDomain(locale, actorUri, ts);
    GroupedEndpoints(actorUri, ts, "", "");
    ByDomainIsPreorder(locale);
    SortSorts(ByDomain(locale), all);
    GroupedShared(actorUri, ts);
    hide FirstOffered, Grouped;
    forall i | 0 <= i < |raw|
      ensures GroupInv(all[i]) && SortedBy(LexLeq, all[i].recipients)
      ensures all[i].actor == actorUri && FirstOffered(ts, all[i].targetDomain, all[i].sharedInbox)
    {
      assert raw[i] in raw;
      FinalizeKeepsGroup(raw[i]);
    }
    forall domain, url ensures Endpoint(groups, domain, url) <==> domain != "" && HasTarget(ts, domain, url) {
      GroupedEndpoints(actorUri, ts, domain, url);
      FinalizedEndpoints(raw, domain, url);
      assert Endpoint(groups, domain, url) <==> Endpoint(all, domain, url);
    }
    SortedDomainsAreUnique(locale, all);
    forall a, b ensures LexLeq(a, b) <==> InCodeOrder(a, b) {
      LexLeqIff(a, b);
    }
    assert forall i, j :: 0 <= i < j < |groups| ==> ByDomain(locale)(groups[i], groups[j]);
    hide InCodeOrder, LexLeq;
  }

  lemma FinalizedEndpoints(raw: seq<Group>, domain: string, url: string)
    requires GroupsInv(raw)
    ensures Endpoint(FinalizeAll(raw), domain, url) <==> Endpoint(raw, domain, url)
  {
    var all := FinalizeAll(raw);
    forall i | 0 <= i < |raw|
      ensures all[i].targetDomain == raw[i].targetDomain && (url in all[i].recipients <==> url in raw[i].recipients)
    {
      assert raw[i] in raw;
      FinalizeKeepsGroup(raw[i]);
    }
    if Endpoint(raw, domain, url) {
      var k :| 0 <= k < |raw| && raw[k].targetDomain == domain && url in raw[k].recipients;
      assert all[k] in all;
    }
    if Endpoint(all, domain, url) {
      var k :| 0 <= k < |all| && all[k].targetDomain == domain && url in all[k].recipients;
      assert raw[k] in raw;
    }
  }

  /** Sorting permutes, so groups of different domains stay of different domains. */
  lemma SortedDomainsAreUnique(locale: (string, string) -> bool, all: seq<Group>)
    requires TotalPreorder(ByDomain(locale))
    requires forall i, j :: 0 <= i < j < |all| ==> all[i].targetDomain != all[j].targetDomain
    ensures var groups := Sort(ByDomain(locale), all);
            forall i, j :: 0 <= i < j < |groups| ==> groups[i].targetDomain != groups[j].targetDomain
  {
    var groups := Sort(ByDomain(locale), all);
    SortSorts(ByDomain(locale), all);
    SortKeepsNoDuplicates(ByDomain(locale), all);
    forall i, j | 0 <= i < j < |groups| ensures groups[i].targetDomain != groups[j].targetDomain {
      assert groups[i] in all && groups[j] in all && groups[i] != groups[j];
    }
  }

  // ----- the order of the targets does not matter -----

  lemma SameRecipients(a: Group, b: Group)
    requires GroupInv(a) && GroupInv(b)
    requires forall i, j :: 0 <= i < j < |a.recipients| ==> InCodeOrder(a.recipients[i], a.recipients[j])
    requires forall i, j :: 0 <= i < j < |b.recipients| ==> InCodeOrder(b.recipients[i], b.recipients[j])
    requires forall url :: url in a.recipients <==> url in b.recipients
    ensures a.recipients == b.recipients
  {
    LexLeqIsTotalOrder();
    forall x, y ensures LexLeq(x, y) <==> InCodeOrder(x, y) {
      LexLeqIff(x, y);
    }
    hide InCodeOrder, LexLeq;
    SameElementsSameMultiset(a.recipients, b.recipients);
    SortedIsUnique(LexLeq, a.recipients, b.recipients);
  }

  function Domains(groups: seq<Group>): (ds: seq<string>)
    ensures |ds| == |groups| && forall i :: 0 <= i < |ds| ==> ds[i] == groups[i].targetDomain
  {
    seq(|groups|, i requires 0 <= i < |groups| => groups[i].targetDomain)
  }

  lemma DomainsHold(groups: seq<Group>, domain: string)
    requires GroupsInv(groups)
    ensures domain in Domains(groups) <==> exists url :: Endpoint(groups, domain, url)
  {
    if domain in Domains(groups) {
      var k :| 0 <= k < |groups| && groups[k].targetDomain == domain;
      assert groups[k] in groups && groups[k].recipients[0] in groups[k].recipients;
      assert Endpoint(groups, domain, groups[k].recipients[0]);
    }
    if url :| Endpoint(groups, domain, url) {
      var k :| 0 <= k < |groups| && groups[k].targetDomain == domain && url in groups[k].recipients;
      assert Domains(groups)[k] == domain;
    }
  }

  lemma SameDomains(locale: (string, string) -> bool, a: seq<Group>, b: seq<Group>)
    requires TotalOrder(locale)
    requires GroupsInv(a) && GroupsInv(b)
    requires forall i, j :: 0 <= i < j < |a| ==> locale(a[i].targetDomain, a[j].targetDomain)
    requires forall i, j :: 0 <= i < j < |b| ==> locale(b[i].targetDomain, b[j].targetDomain)
    requires forall domain, url :: Endpoint(a, domain, url) <==> Endpoint(b, domain, url)
    ensures Domains(a) == Domains(b)
  {
    var da, db := Domains(a), Domains(b);
    forall d ensures d in da <==> d in db {
      DomainsHold(a, d);
      DomainsHold(b, d);
    }
    assert SortedBy(locale, da) && SortedBy(locale, db);
    SameElementsSameMultiset(da, db);
    SortedIsUnique(locale, da, db);
  }

  /** Domains and recipients depend only on the set of (domain, delivery URL) pairs, not on their order. */
  lemma OrderDoesNotMatter(locale: (string, string) -> bool, actorUri: string, ts: seq<Target>, us: seq<Target>)
    requires TotalOrder(locale)
    requires forall domain, url :: HasTarget(ts, domain, url) <==> HasTarget(us, domain, url)
    ensures var a, b := GroupByDomain(locale, actorUri, ts), GroupByDomain(locale, actorUri, us);
            && |a| == |b|
            && forall k :: 0 <= k < |a| ==>
                 a[k].targetDomain == b[k].targetDomain && a[k].recipients == b[k].recipients
  {
    var a, b := GroupByDomain(locale, actorUri, ts), GroupByDomain(locale, actorUri, us);
    GroupsAre(locale, actorUri, ts);
    GroupsAre(locale, actorUri, us);
    SameDomains(locale, a, b);
    forall k | 0 <= k < |a| ensures a[k].targetDomain == b[k].targetDomain && a[k].recipients == b[k].recipients {
      assert Domains(a)[k] == Domains(b)[k];
      assert a[k] in a && b[k] in b;
      forall url ensures url in a[k].recipients <==> url in b[k].recipients {
        OwnRecipients(a, k, url);
        OwnRecipients(b, k, url);
      }
      SameRecipients(a[k], b[k]);
    }
  }

  lemma OwnRecipients(groups: seq<Group>, k: nat, url: string)
    requires GroupsInv(groups) && k < |groups|
    ensures url in groups[k].recipients <==> Endpoint(groups, groups[k].targetDomain, url)
  {
    assert groups[k] in groups;
    if Endpoint(groups, groups[k].targetDomain, url) {
      var j :| 0 <= j < |groups| && groups[j].targetDomain == groups[k].targetDomain && url in groups[j].recipients;
      assert j == k;
    }
  }

  // ----- from recipients to groups -----

  /** Who is delivered to: addressed actors, and the walked followers once a followers collection is addressed. */
  lemma {:induction false} ActorRecipientsAre(
      web: Web, actorUri: string, actor: Json, limits: Limits, uris: seq<Href>, uri: Href)
    ensures var followersUris := FollowersCollectionUris(web, actorUri, actor);
            uri in ActorRecipients(web, actorUri, actor, limits, uris)
            <==> (uri in uris && uri !in followersUris)
                 || (uri in Finish(web, actorUri, limits, Start(followersUris)).actorUris
                     && exists f :: f in uris && f in followersUris)
  {
    if uris != [] {
      var front, last := uris[..|uris| - 1], uris[|uris| - 1];
      assert uris == front + [last];
      ActorRecipientsAre(web, actorUri, actor, limits, front, uri);
      AddAllHolds(ActorRecipients(web, actorUri, actor, limits, front), Expand(web, actorUri, actor, limits, last));
    }
  }

  /** The recipient is remote, resolves, and is delivered to this URL at this domain. */
  ghost predicate DeliversTo(web: Web, dir: Directory, uri: Href, domain: string, url: string) {
    && dir.isLocal(uri) == Some(false) && dir.get(uri).Some?
    && (exists inbox :: ValueNormalizesTo(web, Field(dir.get(uri).value, "inbox"), inbox))
    && DeliveredAt(web, dir.get(uri).value, url)
    && exists parsed :: web.parse(url) == Some(parsed) && domain == Lower(parsed.hostname)
  }

  /** The shared inbox an actor's document names under its endpoints. */
  ghost predicate SharedInbox(web: Web, doc: Json, url: Href) {
    exists endpoints :: Field(doc, "endpoints") == Some(endpoints)
                        && ValueNormalizesTo(web, Field(endpoints, "sharedInbox"), url)
  }

  /** Delivery goes to the shared inbox if there is a valid one, and otherwise to the inbox. */
  ghost predicate DeliveredAt(web: Web, doc: Json, url: string) {
    && url != ""
    && (SharedInbox(web, doc, url)
        || (ValueNormalizesTo(web, Field(doc, "inbox"), url) && forall shared :: !SharedInbox(web, doc, shared)))
  }

  /** The target of one recipient, field by field. */
  ghost predicate IsTargetOf(web: Web, dir: Directory, uri: Href, t: Target) {
    && DeliversTo(web, dir, uri, t.targetDomain, if t.sharedInboxUrl.Some? then t.sharedInboxUrl.value else t.inboxUrl)
    && t.recipientUri == uri
    && ValueNormalizesTo(web, Field(dir.get(uri).value, "inbox"), t.inboxUrl)
    && forall shared :: t.sharedInboxUrl == Some(shared) <==> SharedInbox(web, dir.get(uri).value, shared)
  }

  lemma NormalizesOnce(web: Web, value: Option<Json>)
    ensures NormalizeUrl(web, value).Some? ==> ValueNormalizesTo(web, value, NormalizeUrl(web, value).value)
    ensures forall uri :: ValueNormalizesTo(web, value, uri) ==> NormalizeUrl(web, value) == Some(uri)
  {
    hide NormalizeUrl, ValueNormalizesTo;
    forall uri ensures NormalizeUrl(web, value) == Some(uri) <==> ValueNormalizesTo(web, value, uri) {
      NormalizeUrlIs(web, value, uri);
    }
  }

  lemma SharedOnce(web: Web, doc: Json)
    ensures forall url :: SharedInbox(web, doc, url) <==> SharedOf(web, doc) == Some(url)
  {
    hide NormalizeUrl, ValueNormalizesTo;
    match Field(doc, "endpoints")
    case None =>
    case Some(endpoints) => NormalizesOnce(web, Field(endpoints, "sharedInbox"));
  }

  /**
   A recipient has a target exactly when it is remote, its document is found and has a valid inbox, and its delivery
   URL has a host; every field of the target is settled.
   */
  lemma ResolvesTo(web: Web, dir: Directory, uri: Href, t: Target)
    ensures ResolveOne(web, dir, uri) == Some(t) <==> IsTargetOf(web, dir, uri, t)
  {
    hide NormalizeUrl, ValueNormalizesTo, SharedInbox, Lower;
    if dir.isLocal(uri) == Some(false) && dir.get(uri).Some? {
      var doc := dir.get(uri).value;
      NormalizesOnce(web, Field(doc, "inbox"));
      SharedOnce(web, doc);
    }
  }

  lemma DeliversIff(web: Web, dir: Directory, uri: Href, domain: string, url: string)
    ensures DeliversTo(web, dir, uri, domain, url)
       <==> ResolveOne(web, dir, uri).Some?
            && var t := ResolveOne(web, dir, uri).value; t.targetDomain == domain && DeliveryUrl(t) == url
  {
    hide NormalizeUrl, ValueNormalizesTo, SharedInbox, Lower;
    if dir.isLocal(uri) == Some(false) && dir.get(uri).Some? {
      var doc := dir.get(uri).value;
      NormalizesOnce(web, Field(doc, "inbox"));
      SharedOnce(web, doc);
    }
  }

  lemma {:induction false} ResolveHolds(web: Web, dir: Directory, uris: seq<Href>, t: Target)
    ensures t in Resolve(web, dir, uris) <==> exists uri :: uri in uris && ResolveOne(web, dir, uri) == Some(t)
  {
    if uris != [] {
      var front, last := uris[..|uris| - 1], uris[|uris| - 1];
      assert uris == front + [last];
      ResolveHolds(web, dir, front, t);
    }
  }

  lemma BarSplits(a: string, b: string, x: string, y: string)
    requires '|' !in a && '|' !in b && a + "|" + x == b + "|" + y
    ensures a == b && x == y
  {
    var s := a + "|" + x;
    assert s[|a|] == '|' && (b + "|" + y)[|b|] == '|';
    assert forall i :: 0 <= i < |a| ==> s[i] == a[i];
    assert forall i :: 0 <= i < |b| ==> s[i] == (b + "|" + y)[i] == b[i];
    assert |a| == |b|;
    assert a == s[..|a|] && b == s[..|b|] && x == s[|a| + 1..] && y == s[|b| + 1..];
  }

  /** Delivered to at one domain and URL. */
  ghost predicate SamePair(t: Target, u: Target) {
    && u.targetDomain == t.targetDomain
    && forall domain, url :: GoesTo(t, domain, url) <==> GoesTo(u, domain, url)
  }

  lemma SamePairIff(t: Target, u: Target)
    requires '|' !in t.targetDomain && '|' !in u.targetDomain
    ensures SamePair(t, u) <==> Key(t) == Key(u)
  {
    hide Lower;
    if Key(t) == Key(u) {
      BarSplits(t.targetDomain, u.targetDomain, DeliveryUrl(t), DeliveryUrl(u));
    } else {
      assert GoesTo(t, Lower(t.targetDomain), DeliveryUrl(t));
    }
  }

  lemma {:induction false} KeptKeysAreDistinct(ts: seq<Target>)
    ensures forall i, j :: 0 <= i < j < |FirstOfKey(ts)| ==> Key(FirstOfKey(ts)[i]) != Key(FirstOfKey(ts)[j])
  {
    hide Key;
    if ts != [] {
      KeptKeysAreDistinct(ts[..|ts| - 1]);
      var kept := FirstOfKey(ts[..|ts| - 1]);
      assert forall i :: 0 <= i < |kept| ==> Keys(kept)[i] in Keys(kept);
    }
  }

  lemma {:induction false} EveryKeyIsKept(ts: seq<Target>, t: Target)
    requires t in ts
    ensures Key(t) in Keys(FirstOfKey(ts))
  {
    hide Key;
    var front, last := ts[..|ts| - 1], ts[|ts| - 1];
    var kept, all := FirstOfKey(front), FirstOfKey(ts);
    if t in front {
      EveryKeyIsKept(front, t);
      var k :| 0 <= k < |kept| && Keys(kept)[k] == Key(t);
      assert Keys(all)[k] == Key(t);
    } else if Key(last) !in Keys(kept) {
      assert Keys(all)[|kept|] == Key(last);
    }
  }

  ghost predicate FirstOfItsKey(ts: seq<Target>, i: int, u: Target) {
    0 <= i < |ts| && ts[i] == u && forall j :: 0 <= j < i ==> Key(ts[j]) != Key(u)
  }

  lemma {:induction false} KeptIsFirst(ts: seq<Target>, u: Target) returns (i: nat)
    requires u in FirstOfKey(ts)
    ensures FirstOfItsKey(ts, i, u)
  {
    hide Key;
    var front, last := ts[..|ts| - 1], ts[|ts| - 1];
    if u in FirstOfKey(front) {
      i := KeptIsFirst(front, u);
    } else {
      i := |front|;
      forall j | 0 <= j < i ensures Key(ts[j]) != Key(u) {
        assert front[j] in front;
        EveryKeyIsKept(front, front[j]);
      }
    }
  }

  /**
   The first target of each (domain, delivery URL) pair is kept, once, in the order of the texts "domain|URL".
   */
  lemma DedupedAre(locale: (string, string) -> bool, ts: seq<Target>)
    requires TotalOrder(locale) && NoBars(ts)
    ensures var us := Dedupe(locale, ts);
            && (forall i, j :: 0 <= i < j < |us| ==> !SamePair(us[i], us[j]))
            && (forall i, j :: 0 <= i < j < |us| ==> locale(PairText(us[i]), PairText(us[j])))
            && (forall u :: u in us ==> exists i :: FirstOfPair(ts, i, u))
            && (forall t :: t in ts ==> exists u :: u in us && SamePair(t, u))
  {
    hide Key, SamePair, PairText, FirstOfKey;
    var kept, us := FirstOfKey(ts), Dedupe(locale, ts);
    ByKeyIsPreorder(locale);
    SortSorts(ByKey(locale), kept);
    KeptKeysAreDistinct(ts);
    FirstOfKeyIsSublist(ts);
    KeysStayDistinct(locale, kept);
    forall t, u | t in ts && u in ts ensures SamePair(t, u) <==> Key(t) == Key(u) {
      SamePairIff(t, u);
    }
    forall i, j | 0 <= i < j < |us|
      ensures !SamePair(us[i], us[j]) && locale(PairText(us[i]), PairText(us[j]))
    {
      assert us[i] in kept && us[j] in kept && ByKey(locale)(us[i], us[j]);
      PairTextIs(us[i]);
      PairTextIs(us[j]);
    }
    forall u | u in us ensures exists i :: FirstOfPair(ts, i, u) {
      var i := KeptIsFirst(ts, u);
      assert FirstOfPair(ts, i, u);
    }
    forall t | t in ts ensures exists u :: u in us && SamePair(t, u) {
      EveryKeyIsKept(ts, t);
      var k :| 0 <= k < |kept| && Keys(kept)[k] == Key(t);
      assert kept[k] in kept && kept[k] in us;
    }
  }

  ghost predicate FirstOfPair(ts: seq<Target>, i: int, u: Target) {
    0 <= i < |ts| && ts[i] == u && forall j :: 0 <= j < i ==> !SamePair(ts[j], u)
  }

  ghost function PairText(t: Target): string {
    t.targetDomain + "|" + if t.sharedInboxUrl.Some? then t.sharedInboxUrl.value else t.inboxUrl
  }

  lemma PairTextIs(t: Target)
    ensures PairText(t) == Key(t)
  {
  }

  lemma KeysStayDistinct(locale: (string, string) -> bool, kept: seq<Target>)
    requires TotalPreorder(ByKey(locale))
    requires forall i, j :: 0 <= i < j < |kept| ==> Key(kept[i]) != Key(kept[j])
    ensures var us := Sort(ByKey(locale), kept);
            forall i, j :: 0 <= i < j < |us| ==> Key(us[i]) != Key(us[j])
  {
    hide Key;
    var us := Sort(ByKey(locale), kept);
    SortSorts(ByKey(locale), kept);
    SortKeepsNoDuplicates(ByKey(locale), kept);
    forall i, j | 0 <= i < j < |us| ensures Key(us[i]) != Key(us[j]) {
      assert us[i] in kept && us[j] in kept && us[i] != us[j];
    }
  }

  ghost predicate NoBars(ts: seq<Target>) {
    forall t :: t in ts ==> '|' !in t.targetDomain
  }

  lemma {:induction false} FirstOfKeyIsSublist(ts: seq<Target>)
    ensures forall t :: t in FirstOfKey(ts) ==> t in ts
  {
    if ts != [] {
      var front, last := ts[..|ts| - 1], ts[|ts| - 1];
      assert ts == front + [last];
      FirstOfKeyIsSublist(front);
    }
  }

  /** Dropping later targets of a key drops no (domain, delivery URL) pair. */
  lemma {:induction false} FirstOfKeyKeepsPair(ts: seq<Target>, t: Target) returns (u: Target)
    requires NoBars(ts) && t in ts
    ensures u in FirstOfKey(ts) && SamePair(t, u)
  {
    var front, last := ts[..|ts| - 1], ts[|ts| - 1];
    assert ts == front + [last];
    var kept := FirstOfKey(front);
    if t in front {
      u := FirstOfKeyKeepsPair(front, t);
    } else if Key(last) in Keys(kept) {
      var k :| 0 <= k < |kept| && Keys(kept)[k] == Key(last);
      u := kept[k];
      FirstOfKeyIsSublist(front);
      SamePairIff(last, u);
    } else {
      u := last;
    }
  }

  lemma LowerKeepsBar(s: string)
    ensures '|' in Lower(s) <==> '|' in s
  {
    if '|' in s {
      var k :| 0 <= k < |s| && s[k] == '|';
      assert Lower(s)[k] == '|';
    }
  }

  lemma ResolvedDomain(web: Web, dir: Directory, uri: Href)
    requires HostnamesHaveNoBar(web) && ResolveOne(web, dir, uri).Some?
    ensures var t := ResolveOne(web, dir, uri).value;
            '|' !in t.targetDomain && DomainOf(t) == t.targetDomain && t.recipientUri == uri
  {
    var t := ResolveOne(web, dir, uri).value;
    var hostname := web.parse(DeliveryUrl(t)).value.hostname;
    LowerKeepsBar(hostname);
    LowerTwice(hostname);
  }

  lemma DedupeKeepsPairs(locale: (string, string) -> bool, ts: seq<Target>, domain: string, url: string)
    requires TotalOrder(locale) && NoBars(ts)
    requires forall t :: t in ts ==> DomainOf(t) == t.targetDomain
    ensures HasTarget(Dedupe(locale, ts), domain, url) <==> HasTarget(ts, domain, url)
  {
    ByKeyIsPreorder(locale);
    SortSorts(ByKey(locale), FirstOfKey(ts));
    FirstOfKeyIsSublist(ts);
    if HasTarget(ts, domain, url) {
      var t :| t in ts && GoesTo(t, domain, url);
      var u := FirstOfKeyKeepsPair(ts, t);
      assert u in Dedupe(locale, ts) && GoesTo(u, domain, url);
    }
  }

  lemma ResolvedTargets(web: Web, dir: Directory, uris: seq<Href>, domain: string, url: string)
    requires HostnamesHaveNoBar(web)
    ensures var ts := Resolve(web, dir, uris);
            && NoBars(ts) && (forall t :: t in ts ==> DomainOf(t) == t.targetDomain)
            && (HasTarget(ts, domain, url) <==> exists uri :: uri in uris && DeliversTo(web, dir, uri, domain, url))
  {
    hide DeliversTo, ResolveOne, Resolve;
    var ts := Resolve(web, dir, uris);
    forall uri {
      DeliversIff(web, dir, uri, domain, url);
    }
    forall t | t in ts ensures '|' !in t.targetDomain && DomainOf(t) == t.targetDomain {
      ResolveHolds(web, dir, uris, t);
      var uri :| uri in uris && ResolveOne(web, dir, uri) == Some(t);
      ResolvedDomain(web, dir, uri);
    }
    if HasTarget(ts, domain, url) {
      var t :| t in ts && GoesTo(t, domain, url);
      ResolveHolds(web, dir, uris, t);
      var uri :| uri in uris && ResolveOne(web, dir, uri) == Some(t);
      assert DeliversTo(web, dir, uri, domain, url);
    }
    if uri :| uri in uris && DeliversTo(web, dir, uri, domain, url) {
      ResolveHolds(web, dir, uris, ResolveOne(web, dir, uri).value);
    }
  }

  /**
   Delivery endpoints are preserved: after resolving, deduplicating and grouping, the (domain, delivery URL)
   pairs are exactly those of the remote, resolvable recipients.
   */
  lemma EndpointsArePreserved(
      web: Web, dir: Directory, locale: (string, string) -> bool, actorUri: string, uris: seq<Href>,
      domain: string, url: string)
    requires TotalOrder(locale) && HostnamesHaveNoBar(web)
    ensures Endpoint(GroupByDomain(locale, actorUri, Dedupe(locale, Resolve(web, dir, uris))), domain, url)
       <==> domain != "" && exists uri :: uri in uris && DeliversTo(web, dir, uri, domain, url)
  {
    var ts := Resolve(web, dir, uris);
    ResolvedTargets(web, dir, uris, domain, url);
    DedupeKeepsPairs(locale, ts, domain, url);
    GroupsAre(locale, actorUri, Dedupe(locale, ts));
  }

  // ----- from an activity to its endpoints -----

  /**
   Whom the activity is for: everyone it addresses or mentions who is no followers collection of the actor, and the
   followers once such a collection is addressed.
   */
  ghost predicate Intended(web: Web, activity: Json, actorUri: string, actor: Json, uri: Href) {
    var followersUris := FollowersCollectionUris(web, actorUri, actor);
    || ((Addressed(web, activity, followersUris, uri) || Mentioned(web, activity, uri)) && uri !in followersUris)
    || (Follower(web, actorUri, followersUris, uri) && AddressesFollowers(web, activity, followersUris))
  }

  ghost predicate AddressesFollowers(web: Web, activity: Json, followersUris: seq<Href>) {
    exists f :: f in followersUris && Addressed(web, activity, followersUris, f)
  }

  /** The actors delivery is attempted for. */
  function Attempted(web: Web, activity: Json, actorUri: string, actor: Json): seq<Href> {
    ActorRecipients(web, actorUri, actor, DEFAULT_LIMITS, RecipientUris(web, activity, actorUri, actor))
  }

  /** The followers collection fits the limits: at most ten pages, at most five thousand followers. */
  ghost predicate FitsLimits(web: Web, actorUri: string, actor: Json, pages: set<Href>, followers: set<Href>) {
    var followersUris := FollowersCollectionUris(web, actorUri, actor);
    && Closed(web, followersUris, pages) && |pages| <= DEFAULT_LIMITS.maxPages
    && (forall uri :: uri in followers <==> Follower(web, actorUri, followersUris, uri))
    && |followers| <= DEFAULT_LIMITS.maxFollowerActors
  }

  lemma AddressesFollowersIff(web: Web, activity: Json, actorUri: string, actor: Json)
    ensures var followersUris := FollowersCollectionUris(web, actorUri, actor);
            AddressesFollowers(web, activity, followersUris)
            <==> exists f :: f in RecipientUris(web, activity, actorUri, actor) && f in followersUris
  {
    hide RecipientUris, Addressed, Mentioned, FollowersCollectionUris;
    var followersUris := FollowersCollectionUris(web, actorUri, actor);
    forall f | f in followersUris
      ensures f in RecipientUris(web, activity, actorUri, actor) <==> Addressed(web, activity, followersUris, f)
    {
      RecipientsAre(web, activity, actorUri, actor, f);
    }
  }

  lemma WalkedAre(web: Web, actorUri: string, actor: Json, uri: Href)
    ensures var followersUris := FollowersCollectionUris(web, actorUri, actor);
            uri in Finish(web, actorUri, DEFAULT_LIMITS, Start(followersUris)).actorUris
            ==> Follower(web, actorUri, followersUris, uri)
  {
    hide Finish, FollowersCollectionUris, Follower;
    WalkIsExact(web, actorUri, DEFAULT_LIMITS, FollowersCollectionUris(web, actorUri, actor));
  }

  lemma FittingWalk(web: Web, actorUri: string, actor: Json, pages: set<Href>, followers: set<Href>, uri: Href)
    requires FitsLimits(web, actorUri, actor, pages, followers)
    ensures var followersUris := FollowersCollectionUris(web, actorUri, actor);
            uri in Finish(web, actorUri, DEFAULT_LIMITS, Start(followersUris)).actorUris
            <==> Follower(web, actorUri, followersUris, uri)
  {
    hide Finish, FollowersCollectionUris, Follower, Closed;
    var followersUris := FollowersCollectionUris(web, actorUri, actor);
    CompleteIffFollowersFit(web, actorUri, DEFAULT_LIMITS, followersUris, pages, followers);
    assert uri in Elements(Finish(web, actorUri, DEFAULT_LIMITS, Start(followersUris)).actorUris) <==> uri in followers;
  }

  /** Nobody unintended is attempted; and when the followers fit the limits, everyone intended is. */
  lemma AttemptedAre(
      web: Web, activity: Json, actorUri: string, actor: Json, pages: set<Href>, followers: set<Href>, uri: Href)
    ensures uri in Attempted(web, activity, actorUri, actor) ==> Intended(web, activity, actorUri, actor, uri)
    ensures FitsLimits(web, actorUri, actor, pages, followers) ==>
              (uri in Attempted(web, activity, actorUri, actor) <==> Intended(web, activity, actorUri, actor, uri))
  {
    hide RecipientUris, ActorRecipients, Addressed, Mentioned, FollowersCollectionUris, Finish, Follower, FitsLimits,
         AddressesFollowers;
    RecipientsAre(web, activity, actorUri, actor, uri);
    ActorRecipientsAre(web, actorUri, actor, DEFAULT_LIMITS, RecipientUris(web, activity, actorUri, actor), uri);
    AddressesFollowersIff(web, activity, actorUri, actor);
    WalkedAre(web, actorUri, actor, uri);
    if FitsLimits(web, actorUri, actor, pages, followers) {
      FittingWalk(web, actorUri, actor, pages, followers, uri);
    }
  }

  /** The groups an activity is delivered through. */
  function DeliveryGroups(
      web: Web, dir: Directory, locale: (string, string) -> bool, actorUri: string, actor: Json, activity: Json)
    : seq<Group>
  {
    GroupByDomain(locale, actorUri, Targets(web, dir, locale, actorUri, actor, activity))
  }

  /**
   End to end. Every (domain, delivery URL) pair of the groups is one an intended recipient is delivered to; and when
   the followers fit the limits, the pairs are exactly those of the intended recipients that are remote and resolve.
   */
  lemma ActivityReachesItsRecipients(
      web: Web, dir: Directory, locale: (string, string) -> bool, actorUri: string, actor: Json, activity: Json,
      pages: set<Href>, followers: set<Href>, domain: string, url: string)
    requires TotalOrder(locale) && HostnamesHaveNoBar(web)
    ensures var reached := Endpoint(DeliveryGroups(web, dir, locale, actorUri, actor, activity), domain, url);
            var meant := domain != "" && exists uri ::
                           Intended(web, activity, actorUri, actor, uri) && DeliversTo(web, dir, uri, domain, url);
            (reached ==> meant) && (FitsLimits(web, actorUri, actor, pages, followers) ==> (reached <==> meant))
  {
    hide Attempted, Intended, FitsLimits, DeliversTo, Endpoint, Dedupe, Resolve, GroupByDomain;
    var uris := Attempted(web, activity, actorUri, actor);
    DeliveryGroupsAre(web, dir, locale, actorUri, actor, activity);
    EndpointsArePreserved(web, dir, locale, actorUri, uris, domain, url);
    forall uri
      ensures uri in uris ==> Intended(web, activity, actorUri, actor, uri)
      ensures FitsLimits(web, actorUri, actor, pages, followers) ==>
                (uri in uris <==> Intended(web, activity, actorUri, actor, uri))
    {
      AttemptedAre(web, activity, actorUri, actor, pages, followers, uri);
    }
  }

  lemma DeliveryGroupsAre(
      web: Web, dir: Directory, locale: (string, string) -> bool, actorUri: string, actor: Json, activity: Json)
    ensures DeliveryGroups(web, dir, locale, actorUri, actor, activity)
         == GroupByDomain(
              locale, actorUri, Dedupe(locale, Resolve(web, dir, Attempted(web, activity, actorUri, actor))))
  {
    hide Dedupe, Resolve, GroupByDomain, ActorRecipients, RecipientUris;
  }
}

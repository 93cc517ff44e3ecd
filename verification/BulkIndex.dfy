/**
 The buffered bulk indexer and its counters (fedify-sidecar/archive/legacy/opensearch.js), one step for each
 stretch of code that runs without waiting.
 */
module BulkIndex {
  import opened Prelude

  datatype Document = Document(id: string, content: string)

  /** The bulk buffer holds an action and its document, turn about. */
  datatype Entry = Action(id: string) | Source(document: Document)

  /** The length of the serialised buffer, or nothing when serialising throws. */
  datatype Config = Config(stringifiedLength: seq<Entry> -> Option<nat>, flushBytes: nat)

  /** How a bulk request ends: accepted, with failed items, or with an exception. */
  datatype Ending = Accepted | ItemErrors(count: nat) | Exception

  /** A message's value: a JSON null, which throws before anything is counted, or one that mapping throws on or maps. */
  datatype Value = Null | Unmappable | Mappable(document: Document)

  datatype Event =
    | Message(value: Value)
    | Flush                               // the timer, or closing
    | Response(request: nat, ending: Ending)

  /** The service, its requests in flight, and a record of what it was given and what it sent. */
  datatype Indexer = Indexer(
    buffer: seq<Entry>, indexed: int, failed: int, inFlight: seq<seq<Entry>>,
    handled: nat, uncounted: nat, thrown: nat, accepted: seq<Document>, sent: seq<seq<Entry>>)

  const Start: Indexer := Indexer([], 0, 0, [], 0, 0, 0, [], [])

  function Pair(d: Document): seq<Entry> {
    [Action(d.id), Source(d)]
  }

  function Flushed(x: Indexer): Indexer {
    if x.buffer == [] then x else x.(buffer := [], inFlight := x.inFlight + [x.buffer], sent := x.sent + [x.buffer])
  }

  function Pushed(x: Indexer, d: Document): Indexer {
    x.(buffer := x.buffer + Pair(d), accepted := x.accepted + [d])
  }

  function Counted(x: Indexer): Indexer {
    x.(handled := x.handled + 1)
  }

  function Handled(cfg: Config, x: Indexer, value: Value): Indexer {
    var y := Counted(x);
    match value
    case Null => y.(uncounted := y.uncounted + 1)
    case Unmappable => y.(failed := y.failed + 1)
    case Mappable(d) =>
      var z := Pushed(y, d);
      match cfg.stringifiedLength(z.buffer)
      case None => z.(failed := z.failed + 1, thrown := z.thrown + 1)
      case Some(n) => if n >= cfg.flushBytes then Flushed(z) else z
  }

  function Ended(x: Indexer, i: nat, ending: Ending): Indexer
    requires i < |x.inFlight|
  {
    var documents := |x.inFlight[i]| / 2;
    var y := x.(inFlight := RemoveAt(x.inFlight, i));
    match ending
    case Accepted => y.(indexed := y.indexed + documents)
    case ItemErrors(n) => y.(failed := y.failed + n, indexed := y.indexed + documents - n)
    case Exception => y.(failed := y.failed + documents)
  }

  predicate Enabled(x: Indexer, e: Event) {
    e.Response? ==> e.request < |x.inFlight|
  }

  function Step(cfg: Config, x: Indexer, e: Event): Indexer
    requires Enabled(x, e)
  {
    match e
    case Message(value) => Handled(cfg, x, value)
    case Flush => Flushed(x)
    case Response(i, ending) => Ended(x, i, ending)
  }

  predicate Possible(cfg: Config, x: Indexer, events: seq<Event>)
    decreases events
  {
    events == [] || (Enabled(x, events[0]) && Possible(cfg, Step(cfg, x, events[0]), events[1..]))
  }

  function Run(cfg: Config, x: Indexer, events: seq<Event>): Indexer
    requires Possible(cfg, x, events)
    decreases events
  {
    if events == [] then x else Run(cfg, Step(cfg, x, events[0]), events[1..])
  }

  /** The object of the source. */
  class OpenSearchService {
    const cfg: Config
    var bulkBuffer: seq<Entry>
    var indexed: int
    var failed: int
    var inFlight: seq<seq<Entry>>
    ghost var handled: nat
    ghost var uncounted: nat
    ghost var thrown: nat
    ghost var accepted: seq<Document>
    ghost var sent: seq<seq<Entry>>

    ghost function View(): Indexer
      reads this
    {
      Indexer(bulkBuffer, indexed, failed, inFlight, handled, uncounted, thrown, accepted, sent)
    }

    constructor (cfg: Config)
      ensures this.cfg == cfg && View() == Start
    {
      this.cfg := cfg;
      bulkBuffer, indexed, failed, inFlight := [], 0, 0, [];
      handled, uncounted, thrown, accepted, sent := 0, 0, 0, [], [];
    }

    /** `flushBulk` up to its request; the buffer is swapped for an empty one. */
    method FlushBulk()
      modifies this
      ensures View() == Flushed(old(View()))
    {
      if |bulkBuffer| == 0 {
        return;
      }
      var buffer := bulkBuffer;
      bulkBuffer := [];
      inFlight := inFlight + [buffer];
      sent := sent + [buffer];
    }

    /** `indexDocument`; false when serialising the buffer throws. */
    method IndexDocument(document: Document) returns (ok: bool)
      modifies this
      ensures ok <==> cfg.stringifiedLength(old(bulkBuffer) + Pair(document)).Some?
      ensures ok ==> var z := Pushed(old(View()), document);
                     View() == if cfg.stringifiedLength(z.buffer).value >= cfg.flushBytes then Flushed(z) else z
      ensures !ok ==> View() == Pushed(old(View()), document)
    {
      bulkBuffer := bulkBuffer + [Action(document.id)];
      bulkBuffer := bulkBuffer + [Source(document)];
      accepted := accepted + [document];
      assert bulkBuffer == old(bulkBuffer) + Pair(document);
      var length := cfg.stringifiedLength(bulkBuffer);
      if length.None? {
        return false;
      }
      if length.value >= cfg.flushBytes {
        FlushBulk();
      }
      ok := true;
    }

    /** Taking a null value apart rejects the call; any later throw is caught and counted. */
    method HandleFirehoseMessage(value: Value) returns (ok: bool)
      modifies this
      ensures ok <==> !value.Null?
      ensures View() == Step(cfg, old(View()), Message(value))
    {
      handled := handled + 1;
      if value.Null? {
        uncounted := uncounted + 1;
        return false;
      }
      ok := true;
      if value.Unmappable? {
        failed := failed + 1;
        return;
      }
      var indexed := IndexDocument(value.document);
      if !indexed {
        failed := failed + 1;
        thrown := thrown + 1;
      }
    }

    /** The rest of `flushBulk`, once its request has ended. */
    method BulkEnds(i: nat, ending: Ending)
      requires i < |inFlight|
      modifies this
      ensures View() == Step(cfg, old(View()), Response(i, ending))
    {
      var buffer := inFlight[i];
      inFlight := RemoveAt(inFlight, i);
      match ending {
        case ItemErrors(errors) =>
          failed := failed + errors;
          indexed := indexed + (|buffer| / 2 - errors);
        case Accepted =>
          indexed := indexed + |buffer| / 2;
        case Exception =>
          failed := failed + |buffer| / 2;
      }
    }
  }

  // ----- what every run keeps -----

  /** The entries of a list of documents. */
  function Entries(documents: seq<Document>): seq<Entry> {
    if documents == [] then []
    else Entries(documents[..|documents| - 1]) + Pair(documents[|documents| - 1])
  }

  function Flatten(bodies: seq<seq<Entry>>): seq<Entry> {
    if bodies == [] then [] else Flatten(bodies[..|bodies| - 1]) + bodies[|bodies| - 1]
  }

  function Halves(bodies: seq<seq<Entry>>): nat {
    if bodies == [] then 0 else Halves(bodies[..|bodies| - 1]) + |bodies[|bodies| - 1]| / 2
  }

  /** Action, document, action, document: each action names the document after it. */
  ghost predicate Alternates(body: seq<Entry>) {
    && |body| % 2 == 0
    && forall i :: 0 <= i < |body| && i % 2 == 0 ==>
         i + 1 < |body| && body[i].Action? && body[i + 1].Source? && body[i].id == body[i + 1].document.id
  }

  /**
   Every document handed over is counted once where it is now; a throw while serialising counts once more, and a null
   value nowhere.
   */
  ghost predicate Balanced(x: Indexer) {
    x.indexed + x.failed + |x.buffer| / 2 + Halves(x.inFlight) + x.uncounted == x.handled + x.thrown
  }

  /** The bulk requests in the order sent, followed by the buffer, hold exactly the mapped documents in order. */
  ghost predicate SendsAllOnce(x: Indexer) {
    Flatten(x.sent) + x.buffer == Entries(x.accepted)
  }

  ghost predicate WellFormed(x: Indexer) {
    && Alternates(x.buffer)
    && (forall i :: 0 <= i < |x.inFlight| ==> Alternates(x.inFlight[i]) && x.inFlight[i] != [])
  }

  ghost predicate Inv(x: Indexer) {
    Balanced(x) && SendsAllOnce(x) && WellFormed(x)
  }

  lemma FlushBalances(x: Indexer)
    ensures Halves(Flushed(x).inFlight) + |Flushed(x).buffer| / 2 == Halves(x.inFlight) + |x.buffer| / 2
  {
    if x.buffer != [] {
      assert (x.inFlight + [x.buffer])[..|x.inFlight|] == x.inFlight;
    }
  }

  lemma FlushSends(x: Indexer)
    requires SendsAllOnce(x)
    ensures SendsAllOnce(Flushed(x))
  {
    if x.buffer != [] {
      assert (x.sent + [x.buffer])[..|x.sent|] == x.sent;
      assert Flatten(x.sent + [x.buffer]) + [] == Flatten(x.sent) + x.buffer;
    }
  }

  lemma NothingAlternates()
    ensures Alternates([])
  {
  }

  lemma FlushKeeps(x: Indexer)
    requires Inv(x)
    ensures Inv(Flushed(x))
  {
    hide Alternates, Halves, SendsAllOnce;
    FlushBalances(x);
    FlushSends(x);
    NothingAlternates();
  }

  lemma PairAlternates(body: seq<Entry>, d: Document)
    requires Alternates(body)
    ensures Alternates(body + Pair(d)) && |body + Pair(d)| / 2 == |body| / 2 + 1
  {
  }

  lemma PushSends(x: Indexer, d: Document)
    requires SendsAllOnce(x)
    ensures SendsAllOnce(Pushed(x, d))
  {
    assert (x.accepted + [d])[..|x.accepted|] == x.accepted;
    assert Flatten(x.sent) + (x.buffer + Pair(d)) == (Flatten(x.sent) + x.buffer) + Pair(d);
  }

  /** A pushed document balances its message, unless the message is counted as failed too. */
  lemma PushKeeps(x: Indexer, d: Document)
    requires Inv(x)
    ensures Inv(Pushed(Counted(x), d))
    ensures Inv(Pushed(Counted(x), d).(failed := x.failed + 1, thrown := x.thrown + 1))
  {
    hide Alternates, Halves, SendsAllOnce;
    PairAlternates(x.buffer, d);
    SendsAreTheSame(x, Counted(x));
    PushSends(Counted(x), d);
    SendsAreTheSame(Pushed(Counted(x), d), Pushed(Counted(x), d).(failed := x.failed + 1, thrown := x.thrown + 1));
  }

  lemma FailureKeeps(x: Indexer)
    requires Inv(x)
    ensures Inv(Counted(x).(failed := x.failed + 1)) && Inv(Counted(x).(uncounted := x.uncounted + 1))
  {
    hide Alternates, Halves, SendsAllOnce;
    SendsAreTheSame(x, Counted(x).(failed := x.failed + 1));
    SendsAreTheSame(x, Counted(x).(uncounted := x.uncounted + 1));
  }

  lemma SendsAreTheSame(x: Indexer, y: Indexer)
    requires x.sent == y.sent && x.buffer == y.buffer && x.accepted == y.accepted
    ensures SendsAllOnce(x) <==> SendsAllOnce(y)
  {
  }

  lemma MessageKeeps(cfg: Config, x: Indexer, value: Value)
    requires Inv(x)
    ensures Inv(Handled(cfg, x, value))
  {
    hide Inv, Flushed;
    if value.Mappable? {
      PushKeeps(x, value.document);
      FlushKeeps(Pushed(Counted(x), value.document));
    } else {
      FailureKeeps(x);
    }
  }

  lemma {:induction false} HalvesWithout(bodies: seq<seq<Entry>>, i: nat)
    requires i < |bodies|
    ensures Halves(RemoveAt(bodies, i)) == Halves(bodies) - |bodies[i]| / 2
  {
    var n := |bodies| - 1;
    if i == n {
      assert RemoveAt(bodies, i) == bodies[..n];
    } else {
      HalvesWithout(bodies[..n], i);
      assert RemoveAt(bodies, i)[..n - 1] == RemoveAt(bodies[..n], i);
    }
  }

  lemma WithoutKeeps(x: Indexer, i: nat)
    requires WellFormed(x) && i < |x.inFlight|
    ensures WellFormed(x.(inFlight := RemoveAt(x.inFlight, i)))
  {
    hide Alternates;
    var rest := RemoveAt(x.inFlight, i);
    forall j | 0 <= j < |rest| ensures Alternates(rest[j]) && rest[j] != [] {
      assert rest[j] == x.inFlight[if j < i then j else j + 1];
    }
  }

  lemma EndBalances(x: Indexer, i: nat, ending: Ending)
    requires Balanced(x) && i < |x.inFlight|
    ensures Balanced(Ended(x, i, ending))
  {
    hide Halves, RemoveAt;
    HalvesWithout(x.inFlight, i);
  }

  lemma ResponseKeeps(x: Indexer, i: nat, ending: Ending)
    requires Inv(x) && i < |x.inFlight|
    ensures Inv(Ended(x, i, ending))
  {
    hide Alternates, RemoveAt, Balanced, Halves, Flatten, Entries;
    WithoutKeeps(x, i);
    EndBalances(x, i, ending);
  }

  lemma StepKeepsInv(cfg: Config, x: Indexer, e: Event)
    requires Inv(x) && Enabled(x, e)
    ensures Inv(Step(cfg, x, e))
  {
    hide Inv;
    match e {
      case Message(value) => MessageKeeps(cfg, x, value);
      case Flush => FlushKeeps(x);
      case Response(i, ending) => ResponseKeeps(x, i, ending);
    }
  }

  lemma {:induction false} RunKeepsInv(cfg: Config, x: Indexer, events: seq<Event>)
    requires Inv(x) && Possible(cfg, x, events)
    ensures Inv(Run(cfg, x, events))
    decreases events
  {
    hide Inv, Step;
    if events != [] {
      StepKeepsInv(cfg, x, events[0]);
      RunKeepsInv(cfg, Step(cfg, x, events[0]), events[1..]);
    }
  }

  /** Messages during which serialising the buffer threw, read off the run itself. */
  function Throws(cfg: Config, x: Indexer, events: seq<Event>): nat
    requires Possible(cfg, x, events)
    decreases events
  {
    if events == [] then 0
    else
      (match events[0]
       case Message(Mappable(d)) => if cfg.stringifiedLength(x.buffer + Pair(d)).None? then 1 else 0
       case _ => 0)
      + Throws(cfg, Step(cfg, x, events[0]), events[1..])
  }

  function Messages(events: seq<Event>): nat {
    if events == [] then 0 else (if events[0].Message? then 1 else 0) + Messages(events[1..])
  }

  /** Messages whose value was a JSON null. */
  function Nulls(events: seq<Event>): nat {
    if events == [] then 0 else (if events[0] == Message(Null) then 1 else 0) + Nulls(events[1..])
  }

  /** The documents the messages were mapped to, in order. */
  function Mapped(events: seq<Event>): seq<Document> {
    if events == [] then []
    else (match events[0]
          case Message(Mappable(d)) => [d]
          case _ => [])
         + Mapped(events[1..])
  }

  /** The bodies whose requests ended, read off the run. */
  function Concluded(cfg: Config, x: Indexer, events: seq<Event>): seq<seq<Entry>>
    requires Possible(cfg, x, events)
    decreases events
  {
    if events == [] then []
    else (if events[0].Response? then [x.inFlight[events[0].request]] else [])
         + Concluded(cfg, Step(cfg, x, events[0]), events[1..])
  }

  /** The record kept beside the service tells what happened. */
  lemma {:induction false} RecordIsFaithful(cfg: Config, x: Indexer, events: seq<Event>)
    requires Possible(cfg, x, events)
    ensures Run(cfg, x, events).handled == x.handled + Messages(events)
    ensures Run(cfg, x, events).uncounted == x.uncounted + Nulls(events)
    ensures Run(cfg, x, events).thrown == x.thrown + Throws(cfg, x, events)
    decreases events
  {
    if events != [] {
      RecordIsFaithful(cfg, Step(cfg, x, events[0]), events[1..]);
    }
  }

  lemma {:induction false} AcceptedAreMapped(cfg: Config, x: Indexer, events: seq<Event>)
    requires Possible(cfg, x, events)
    ensures Run(cfg, x, events).accepted == x.accepted + Mapped(events)
    decreases events
  {
    if events != [] {
      AcceptedAreMapped(cfg, Step(cfg, x, events[0]), events[1..]);
    }
  }

  lemma FlushKeepsBodies(x: Indexer)
    ensures multiset(Flushed(x).sent) + multiset(x.inFlight) == multiset(x.sent) + multiset(Flushed(x).inFlight)
  {
    if x.buffer != [] {
      assert multiset(x.sent + [x.buffer]) == multiset(x.sent) + multiset([x.buffer]);
      assert multiset(x.inFlight + [x.buffer]) == multiset(x.inFlight) + multiset([x.buffer]);
    }
  }

  lemma HandledKeepsBodies(cfg: Config, x: Indexer, value: Value)
    ensures var y := Handled(cfg, x, value);
            multiset(y.sent) + multiset(x.inFlight) == multiset(x.sent) + multiset(y.inFlight)
  {
    hide Flushed;
    if value.Mappable? {
      FlushKeepsBodies(Pushed(Counted(x), value.document));
    }
  }

  lemma ResponseKeepsBodies(x: Indexer, y: Indexer, i: nat)
    requires i < |x.inFlight| && y.sent == x.sent && y.inFlight == RemoveAt(x.inFlight, i)
    ensures multiset(y.sent) + multiset(x.inFlight)
            == multiset(x.sent) + multiset(y.inFlight) + multiset([x.inFlight[i]])
  {
    WithoutOne(x.inFlight, i);
    hide RemoveAt;
    assert multiset([x.inFlight[i]]) == multiset{x.inFlight[i]} && x.inFlight[i] in multiset(x.inFlight);
  }

  /** A step moves bodies from the buffer into flight, or from flight to their end. */
  lemma StepKeepsBodies(cfg: Config, x: Indexer, e: Event)
    requires Enabled(x, e)
    ensures var y := Step(cfg, x, e);
            var ended := if e.Response? then [x.inFlight[e.request]] else [];
            multiset(y.sent) + multiset(x.inFlight) == multiset(x.sent) + multiset(y.inFlight) + multiset(ended)
  {
    hide Flushed, Handled, RemoveAt;
    var none: seq<seq<Entry>> := [];
    assert multiset(none) == multiset{};
    match e {
      case Response(i, _) => ResponseKeepsBodies(x, Step(cfg, x, e), i);
      case Message(value) => HandledKeepsBodies(cfg, x, value);
      case Flush => FlushKeepsBodies(x);
    }
  }

  lemma CancelMiddle<T>(
      sent: multiset<T>, flying0: multiset<T>, sent0: multiset<T>, sent1: multiset<T>, flying1: multiset<T>,
      flying: multiset<T>, ended: multiset<T>, rest: multiset<T>)
    requires sent1 + flying0 == sent0 + flying1 + ended && sent + flying1 == sent1 + flying + rest
    ensures sent + flying0 == sent0 + flying + (ended + rest)
  {
    forall x ensures (sent + flying0)[x] == (sent0 + flying + (ended + rest))[x] {
      assert (sent1 + flying0)[x] == (sent0 + flying1 + ended)[x];
      assert (sent + flying1)[x] == (sent1 + flying + rest)[x];
    }
  }

  /** Every body sent is in flight or has ended, once. */
  lemma {:induction false} SentAreAccountedFor(cfg: Config, x: Indexer, events: seq<Event>)
    requires Possible(cfg, x, events)
    ensures var y := Run(cfg, x, events);
            multiset(y.sent) + multiset(x.inFlight)
            == multiset(x.sent) + multiset(y.inFlight) + multiset(Concluded(cfg, x, events))
    decreases events
  {
    hide Step;
    if events != [] {
      var next := Step(cfg, x, events[0]);
      StepKeepsBodies(cfg, x, events[0]);
      SentAreAccountedFor(cfg, next, events[1..]);
      var ended := if events[0].Response? then [x.inFlight[events[0].request]] else [];
      assert Concluded(cfg, x, events) == ended + Concluded(cfg, next, events[1..]);
      CancelMiddle(
        multiset(Run(cfg, x, events).sent), multiset(x.inFlight), multiset(x.sent), multiset(next.sent),
        multiset(next.inFlight), multiset(Run(cfg, x, events).inFlight), multiset(ended),
        multiset(Concluded(cfg, next, events[1..])));
    }
  }

  /** indexed + failed + buffered + in flight. */
  function Accounted(x: Indexer): int {
    x.indexed + x.failed + |x.buffer| / 2 + Halves(x.inFlight)
  }

  /**
   After any interleaving of messages, flushes and responses, the counters, the buffer and the requests in flight
   account for each message once, but for two kinds: a null value is counted nowhere, and a throw while serialising
   leaves the document in the buffer and counts it as failed too. So the totals agree exactly when there are as many
   of the one as of the other.
   */
  lemma EveryMessageIsAccountedFor(cfg: Config, events: seq<Event>)
    requires Possible(cfg, Start, events)
    ensures var x := Run(cfg, Start, events);
            && Accounted(x) + Nulls(events) == Messages(events) + Throws(cfg, Start, events)
            && (Accounted(x) == Messages(events) <==> Throws(cfg, Start, events) == Nulls(events))
  {
    hide Possible, Run, SendsAllOnce, WellFormed;
    StartKeeps();
    RunKeepsInv(cfg, Start, events);
    RecordIsFaithful(cfg, Start, events);
  }

  lemma StartKeeps()
    ensures Inv(Start)
  {
  }

  lemma DropEmpties<T>(sent: multiset<T>, flying: multiset<T>, ended: multiset<T>)
    requires sent + multiset{} == multiset{} + flying + ended
    ensures sent == flying + ended
  {
    forall x ensures sent[x] == (flying + ended)[x] {
      assert (sent + multiset{})[x] == (multiset{} + flying + ended)[x];
    }
  }

  lemma SentFromStart(cfg: Config, events: seq<Event>)
    requires Possible(cfg, Start, events)
    ensures var x := Run(cfg, Start, events);
            multiset(x.sent) == multiset(x.inFlight) + multiset(Concluded(cfg, Start, events))
  {
    SentAreAccountedFor(cfg, Start, events);
    var x, ended := Run(cfg, Start, events), Concluded(cfg, Start, events);
    var none: seq<seq<Entry>> := [];
    assert Start.inFlight == none && Start.sent == none && multiset(none) == multiset{};
    DropEmpties(multiset(x.sent), multiset(x.inFlight), multiset(ended));
  }

  /**
   Every document a message was mapped to is sent once, in order: the bodies sent, in the order sent, followed by the
   buffer, hold exactly those documents; each body is in flight or has ended, once; bodies alternate action and
   document.
   */
  lemma EveryDocumentIsSentOnce(cfg: Config, events: seq<Event>)
    requires Possible(cfg, Start, events)
    ensures var x := Run(cfg, Start, events);
            && Flatten(x.sent) + x.buffer == Entries(Mapped(events))
            && multiset(x.sent) == multiset(x.inFlight) + multiset(Concluded(cfg, Start, events))
            && Alternates(x.buffer)
            && forall i :: 0 <= i < |x.inFlight| ==> Alternates(x.inFlight[i]) && x.inFlight[i] != []
  {
    hide Possible, Run, Flatten, Entries, Mapped, Concluded, Alternates;
    StartKeeps();
    RunKeepsInv(cfg, Start, events);
    AcceptedAreMapped(cfg, Start, events);
    SentFromStart(cfg, events);
    assert Start.accepted + Mapped(events) == Mapped(events);
  }

  /** One message, a flush, and the end of the request. */
  function OneMessage(d: Document, ending: Ending): seq<Event> {
    [Message(Mappable(d)), Event.Flush, Response(0, ending)]
  }

  /**
   A message during which serialising throws is counted twice, however its request ends: as failed at once, and again
   when the document left in the buffer is sent after all.
   */
  lemma ThrowCountsTwice(cfg: Config, d: Document, ending: Ending)
    requires cfg.stringifiedLength(Pair(d)).None?
    ensures Possible(cfg, Start, OneMessage(d, ending)) && Messages(OneMessage(d, ending)) == 1
    ensures var x := Run(cfg, Start, OneMessage(d, ending));
            Accounted(x) == 2 && x.buffer == [] && x.inFlight == [] && x.failed >= 1
  {
    var message, flush, response := Message(Mappable(d)), Event.Flush, Response(0, ending);
    var x1 := Step(cfg, Start, message);
    assert [] + Pair(d) == Pair(d);
    assert x1 == Start.(buffer := Pair(d), failed := 1, handled := 1, thrown := 1, accepted := [d]);
    var x2 := Step(cfg, x1, flush);
    assert x2 == x1.(buffer := [], inFlight := [Pair(d)], sent := [Pair(d)]);
    var x3 := Step(cfg, x2, response);
    assert RemoveAt(x2.inFlight, 0) == [];
    var events := OneMessage(d, ending);
    assert events[1..] == [flush, response] && events[1..][1..] == [response] && [response][1..] == [];
    assert Possible(cfg, x3, []) && Run(cfg, x3, []) == x3;
    assert Possible(cfg, x2, [response]) && Run(cfg, x2, [response]) == x3;
    assert Possible(cfg, x1, [flush, response]);
    assert Run(cfg, x1, [flush, response]) == x3;
    assert Messages([response]) == 0 && Messages([flush, response]) == 0;
  }

  /** A step that counts as a failure: mapping or serialising threw, or the response was not clean. */
  predicate Fails(cfg: Config, x: Indexer, e: Event)
    requires Enabled(x, e)
  {
    match e
    case Message(Null) => false
    case Message(Unmappable) => true
    case Message(Mappable(d)) => cfg.stringifiedLength(x.buffer + Pair(d)).None?
    case Flush => false
    case Response(_, Accepted) => false
    case Response(_, ItemErrors(n)) => n > 0
    case Response(_, Exception) => true
  }

  predicate NothingFails(cfg: Config, x: Indexer, events: seq<Event>)
    requires Possible(cfg, x, events)
    decreases events
  {
    events == [] || (!Fails(cfg, x, events[0]) && NothingFails(cfg, Step(cfg, x, events[0]), events[1..]))
  }

  lemma StepFails(cfg: Config, x: Indexer, e: Event)
    requires Inv(x) && Enabled(x, e)
    ensures Step(cfg, x, e).failed >= x.failed
    ensures Step(cfg, x, e).failed == x.failed <==> !Fails(cfg, x, e)
  {
    if e.Response? {
      assert Alternates(x.inFlight[e.request]) && x.inFlight[e.request] != [];
    }
  }

  lemma {:induction false} RunFails(cfg: Config, x: Indexer, events: seq<Event>)
    requires Inv(x) && Possible(cfg, x, events)
    ensures Run(cfg, x, events).failed >= x.failed
    ensures Run(cfg, x, events).failed == x.failed <==> NothingFails(cfg, x, events)
    decreases events
  {
    hide Inv, Step, Fails;
    if events != [] {
      StepKeepsInv(cfg, x, events[0]);
      StepFails(cfg, x, events[0]);
      RunFails(cfg, Step(cfg, x, events[0]), events[1..]);
    }
  }

  /**
   The failure counter is zero exactly when no step counts as a failure; then every message but the null ones is
   indexed, buffered or in flight.
   */
  lemma FailuresAreCounted(cfg: Config, events: seq<Event>)
    requires Possible(cfg, Start, events)
    ensures var x := Run(cfg, Start, events);
            && (x.failed == 0 <==> NothingFails(cfg, Start, events))
            && (x.failed == 0 ==> x.indexed + |x.buffer| / 2 + Halves(x.inFlight) == Messages(events) - Nulls(events))
  {
    hide Inv, Step, Fails;
    StartKeeps();
    RunFails(cfg, Start, events);
    EveryMessageIsAccountedFor(cfg, events);
    if NothingFails(cfg, Start, events) {
      NoThrows(cfg, Start, events);
    }
  }

  lemma {:induction false} NoThrows(cfg: Config, x: Indexer, events: seq<Event>)
    requires Possible(cfg, x, events) && NothingFails(cfg, x, events)
    ensures Throws(cfg, x, events) == 0
    decreases events
  {
    if events != [] {
      NoThrows(cfg, Step(cfg, x, events[0]), events[1..]);
    }
  }
}

/**
 The durable work queue on Redis streams (fedify-sidecar/archive/legacy/fedify-redis-message-queue.ts)
 as a transition system: any number of workers and movers, each Redis command or transaction one step,
 and a crash possible between any two of them.
 */
module WorkQueue {
  import opened Prelude

  // COUNT of XREADGROUP and XAUTOCLAIM, LIMIT of ZRANGEBYSCORE.
  const READ_COUNT: nat := 10
  const CLAIM_COUNT: nat := 10
  const MOVE_COUNT: nat := 100

  datatype Config = Config(maxStreamLength: nat, claimIdleTime: nat)

  /** A message is its random identifier; `hasData` is false for a foreign entry without a data field. */
  datatype Message = Message(id: nat, hasData: bool)

  /** A stream entry. Redis entry identifiers carry the time of the XADD. */
  datatype Entry = Entry(message: Message, addedAt: nat)

  datatype Claim = Claim(consumer: nat, at: nat)

  /** What a worker holds in memory: the entries it still has to process, the first one current. */
  datatype Batch = Batch(entries: seq<nat>, returned: bool)

  datatype State = State(
    now: nat,
    delayed: map<Message, int>,     // sorted set: message to ready time
    stream: seq<Entry>,             // every entry ever added, oldest first
    trimmed: nat,                   // entries below this position were trimmed away
    delivered: nat,                 // the group's last-delivered position
    pending: map<nat, Claim>,       // the group's pending entries list
    acked: set<nat>,                // positions acknowledged
    workers: map<nat, Batch>,
    movers: map<nat, seq<Message>>, // items a mover has read and not yet committed
    enqueued: set<Message>,         // history: messages accepted by enqueue
    due: map<Message, int>,         // history: ready times of delayed messages
    handled: set<nat>)              // history: positions whose handler returned

  const Init: State := State(0, map[], [], 0, 0, map[], {}, map[], map[], {}, map[], {})

  datatype Event =
    | Tick(later: nat)
    | EnqueueNow(messages: seq<Message>, cut: nat)
    | EnqueueLater(messages: seq<Message>, readyAt: int)
    | ReadNew(worker: nat)
    | ClaimIdle(worker: nat, taken: seq<nat>, purged: set<nat>)
    | HandlerReturns(worker: nat)
    | Acknowledge(worker: nat)
    | Abandon(worker: nat)
    | MoverReads(mover: nat, asOf: nat, items: seq<Message>)
    | MoverCommits(mover: nat, cut: nat)
    | MoverCrashes(mover: nat)

  function Entries(messages: seq<Message>, at: nat): (es: seq<Entry>)
    ensures |es| == |messages| && forall i :: 0 <= i < |es| ==> es[i] == Entry(messages[i], at)
  {
    seq(|messages|, i requires 0 <= i < |messages| => Entry(messages[i], at))
  }

  /** MAXLEN ~ n removes oldest entries, and never so many that fewer than n remain. */
  predicate LegalCut(cfg: Config, s: State, length: nat, cut: nat) {
    cut == s.trimmed || (s.trimmed < cut && cut + cfg.maxStreamLength <= length)
  }

  predicate Ready(s: State, asOf: nat, m: Message) {
    m in s.delayed && 0 <= s.delayed[m] <= asOf
  }

  function Score(s: State, m: Message): int {
    if m in s.delayed then s.delayed[m] else 0
  }

  /**
   What ZRANGEBYSCORE 0 asOf LIMIT 0 100 may return: the lowest scores in ascending order, all of them if they fit.
   The mover reads the clock before it asks, so asOf may lie in the past.
   */
  ghost predicate ReadyBatch(s: State, asOf: nat, items: seq<Message>) {
    && asOf <= s.now
    && NoDuplicates(items)
    && |items| <= MOVE_COUNT
    && (forall m :: m in items ==> Ready(s, asOf, m))
    && (forall i, j :: 0 <= i < j < |items| ==> Score(s, items[i]) <= Score(s, items[j]))
    && (forall m, l :: m in items && Ready(s, asOf, l) && l !in items ==> s.delayed[m] <= s.delayed[l])
    && (|items| < MOVE_COUNT ==> forall m :: Ready(s, asOf, m) ==> m in items)
  }

  /** Entries XAUTOCLAIM may hand over: pending long enough and still in the stream. */
  predicate Claimable(cfg: Config, s: State, i: nat) {
    && i in s.pending
    && s.trimmed <= i
    && s.pending[i].at + cfg.claimIdleTime <= s.now
  }

  ghost predicate Fresh(s: State, messages: seq<Message>) {
    NoDuplicates(messages) && forall m :: m in messages ==> m !in s.enqueued
  }

  ghost predicate Enabled(cfg: Config, s: State, e: Event) {
    match e
    case Tick(later) => s.now <= later
    case EnqueueNow(ms, cut) => Fresh(s, ms) && LegalCut(cfg, s, |s.stream| + |ms|, cut)
    case EnqueueLater(ms, readyAt) => Fresh(s, ms)
    case ReadNew(w) => w !in s.workers
    case ClaimIdle(w, taken, purged) =>
      && w !in s.workers
      && NoDuplicates(taken) && |taken| <= CLAIM_COUNT
      && (forall i :: i in taken ==> Claimable(cfg, s, i))
      && (forall i :: i in purged ==> i in s.pending && i < s.trimmed)
    case HandlerReturns(w) => w in s.workers && !s.workers[w].returned
    case Acknowledge(w) => w in s.workers && s.workers[w].returned
    case Abandon(w) => w in s.workers
    case MoverReads(v, asOf, items) => v !in s.movers && ReadyBatch(s, asOf, items)
    case MoverCommits(v, cut) =>
      v in s.movers && LegalCut(cfg, s, |s.stream| + |s.movers[v]|, cut)
    case MoverCrashes(v) => v in s.movers
  }

  function Max(a: nat, b: nat): nat { if a < b then b else a }
  function Min(a: nat, b: nat): nat { if a < b then a else b }

  function ReadStart(s: State): nat {
    Max(s.trimmed, s.delivered)
  }

  function ReadEnd(s: State): nat {
    Max(ReadStart(s), Min(ReadStart(s) + READ_COUNT, |s.stream|))
  }

  function Range(from: nat, to: nat): (r: seq<nat>)
    requires from <= to
    ensures |r| == to - from && forall k :: 0 <= k < |r| ==> r[k] == from + k
  {
    seq(to - from, k => from + k)
  }

  function Stamp(pending: map<nat, Claim>, entries: set<nat>, c: Claim): map<nat, Claim> {
    pending + map i | i in entries :: c
  }

  /** The state after a step. */
  function Apply(s: State, e: Event): State {
    match e
    case Tick(later) => s.(now := later)
    case EnqueueNow(ms, cut) =>
      s.(stream := s.stream + Entries(ms, s.now), trimmed := cut, enqueued := s.enqueued + Elements(ms))
    case EnqueueLater(ms, readyAt) =>
      var scores := map m | m in ms :: readyAt;
      s.(delayed := s.delayed + scores, due := s.due + scores, enqueued := s.enqueued + Elements(ms))
    case ReadNew(w) =>
      if ReadStart(s) == ReadEnd(s) then s
      else
        var entries := Range(ReadStart(s), ReadEnd(s));
        s.(delivered := ReadEnd(s),
           pending := Stamp(s.pending, Elements(entries), Claim(w, s.now)),
           workers := s.workers[w := Batch(entries, false)])
    case ClaimIdle(w, taken, purged) =>
      s.(pending := Stamp(s.pending - purged, Elements(taken), Claim(w, s.now)),
         workers := if taken == [] then s.workers else s.workers[w := Batch(taken, false)])
    case HandlerReturns(w) =>
      if w in s.workers && s.workers[w].entries != [] then
        var i := s.workers[w].entries[0];
        s.(handled := if i < |s.stream| && s.stream[i].message.hasData then s.handled + {i} else s.handled,
           workers := s.workers[w := s.workers[w].(returned := true)])
      else s
    case Acknowledge(w) =>
      if w in s.workers && s.workers[w].entries != [] then
        var entries := s.workers[w].entries;
        s.(acked := s.acked + {entries[0]},
           pending := RemoveKey(s.pending, entries[0]),
           workers := if |entries| == 1 then RemoveKey(s.workers, w) else s.workers[w := Batch(entries[1..], false)])
      else s
    case Abandon(w) => s.(workers := RemoveKey(s.workers, w))
    case MoverReads(v, asOf, items) => s.(movers := if items == [] then s.movers else s.movers[v := items])
    case MoverCommits(v, cut) =>
      if v in s.movers then
        s.(stream := s.stream + Entries(s.movers[v], s.now),
           trimmed := cut,
           delayed := s.delayed - Elements(s.movers[v]),
           movers := RemoveKey(s.movers, v))
      else s
    case MoverCrashes(v) => s.(movers := RemoveKey(s.movers, v))
  }

  /** A run: the states passed through while performing enabled events from the empty queue. */
  ghost predicate Run(cfg: Config, es: seq<Event>, ss: seq<State>) {
    && |ss| == |es| + 1
    && ss[0] == Init
    && forall k :: 0 <= k < |es| ==> Enabled(cfg, ss[k], es[k]) && ss[k + 1] == Apply(ss[k], es[k])
  }

  lemma Extend(cfg: Config, es: seq<Event>, ss: seq<State>, e: Event) returns (es': seq<Event>, ss': seq<State>)
    requires Run(cfg, es, ss) && Enabled(cfg, ss[|es|], e)
    ensures es' == es + [e] && ss' == ss + [Apply(ss[|es|], e)]
    ensures Run(cfg, es', ss') && ss'[|es'|] == Apply(ss[|es|], e)
  {
    hide Apply, Enabled;
    es', ss' := es + [e], ss + [Apply(ss[|es|], e)];
  }

  // ----- what every reachable state keeps -----

  predicate InStream(s: State, m: Message) {
    exists i :: 0 <= i < |s.stream| && s.stream[i].message == m
  }

  predicate Served(s: State, i: nat) {
    i < |s.stream| && (i in s.handled || !s.stream[i].message.hasData)
  }

  /** Consumer-group bookkeeping. */
  ghost predicate GroupInv(s: State) {
    && s.trimmed <= |s.stream| && s.delivered <= |s.stream|
    && (forall i :: i in s.pending ==> i < s.delivered && i !in s.acked)
    && (forall i :: i in s.acked ==> i < s.delivered && Served(s, i))
    && (forall i :: 0 <= i < s.delivered ==> i in s.pending || i in s.acked || i < s.trimmed)
    && (forall w :: w in s.workers ==> BatchInv(s, s.workers[w]))
  }

  ghost predicate BatchInv(s: State, b: Batch) {
    && b.entries != []
    && (forall i :: i in b.entries ==> i < s.delivered)
    && (b.returned ==> Served(s, b.entries[0]))
  }

  /** Where messages are, and when delayed ones may arrive. */
  ghost predicate MessageInv(s: State) {
    && (forall m :: m in s.enqueued ==> m in s.delayed || InStream(s, m))
    && (forall m :: m in s.delayed ==> m in s.due && s.due[m] == s.delayed[m])
    && (forall m :: m in s.due ==> m in s.enqueued)
    && (forall i :: 0 <= i < |s.stream| ==> EntryInv(s, s.stream[i]))
    && (forall v :: v in s.movers ==> SnapshotInv(s, s.movers[v]))
  }

  ghost predicate EntryInv(s: State, e: Entry) {
    && e.message in s.enqueued
    && e.addedAt <= s.now
    && (e.message in s.due ==> s.due[e.message] <= e.addedAt)
  }

  ghost predicate SnapshotInv(s: State, items: seq<Message>) {
    forall m :: m in items ==>
      m in s.due && s.due[m] <= s.now && (m in s.delayed || InStream(s, m))
  }

  ghost predicate Inv(s: State) {
    GroupInv(s) && MessageInv(s)
  }

  lemma ReadPending(s: State, w: nat, i: nat)
    requires ReadStart(s) <= i < ReadEnd(s)
    ensures i in Apply(s, ReadNew(w)).pending
  {
    assert Range(ReadStart(s), ReadEnd(s))[i - ReadStart(s)] == i;
  }

  lemma BatchesAfterRead(s: State, w: nat, v: nat)
    requires GroupInv(s) && w !in s.workers && v in Apply(s, ReadNew(w)).workers
    ensures BatchInv(Apply(s, ReadNew(w)), Apply(s, ReadNew(w)).workers[v])
  {
    if v in s.workers {
      assert BatchInv(s, s.workers[v]);
    }
  }

  lemma GroupAfterRead(s: State, w: nat)
    requires GroupInv(s) && w !in s.workers
    ensures GroupInv(Apply(s, ReadNew(w)))
  {
    hide BatchInv;
    var t := Apply(s, ReadNew(w));
    forall i: nat | s.delivered <= i < t.delivered ensures i in t.pending || i < t.trimmed {
      if ReadStart(s) <= i {
        ReadPending(s, w, i);
      }
    }
    forall v | v in t.workers ensures BatchInv(t, t.workers[v]) {
      BatchesAfterRead(s, w, v);
    }
  }

  lemma GroupAfterClaim(cfg: Config, s: State, e: Event)
    requires GroupInv(s) && Enabled(cfg, s, e) && e.ClaimIdle?
    ensures GroupInv(Apply(s, e))
  {
    var t := Apply(s, e);
    assert forall i :: i in t.pending ==> i in s.pending;
    forall v | v in t.workers ensures BatchInv(t, t.workers[v]) {
      if v in s.workers {
        assert BatchInv(s, s.workers[v]);
      } else {
        assert forall i :: i in e.taken ==> Claimable(cfg, s, i);
      }
    }
  }

  lemma GroupAfterReturn(s: State, w: nat)
    requires GroupInv(s) && w in s.workers
    ensures GroupInv(Apply(s, HandlerReturns(w)))
  {
    var t := Apply(s, HandlerReturns(w));
    assert BatchInv(s, s.workers[w]);
    assert s.workers[w].entries[0] in s.workers[w].entries;
    forall i | i in t.acked ensures Served(t, i) {
      assert Served(s, i);
    }
    forall v | v in t.workers ensures BatchInv(t, t.workers[v]) {
      assert BatchInv(s, s.workers[v]);
    }
  }

  lemma GroupAfterAck(s: State, w: nat)
    requires GroupInv(s) && w in s.workers && s.workers[w].returned
    ensures GroupInv(Apply(s, Acknowledge(w)))
  {
    var t := Apply(s, Acknowledge(w));
    assert BatchInv(s, s.workers[w]);
    var entries := s.workers[w].entries;
    assert entries[0] in entries && forall i :: i in entries[1..] ==> i in entries;
    forall i | i in t.acked ensures Served(t, i) {
      assert i == s.workers[w].entries[0] || Served(s, i);
    }
    forall v | v in t.workers ensures BatchInv(t, t.workers[v]) {
      assert BatchInv(s, s.workers[v]);
    }
  }

  lemma GroupAfterOther(cfg: Config, s: State, e: Event)
    requires GroupInv(s) && Enabled(cfg, s, e)
    requires !e.ReadNew? && !e.ClaimIdle? && !e.HandlerReturns? && !e.Acknowledge?
    ensures GroupInv(Apply(s, e))
  {
    var t := Apply(s, e);
    assert s.stream <= t.stream && s.trimmed <= t.trimmed <= |t.stream|;
    forall i | i in t.acked ensures Served(t, i) {
      assert Served(s, i);
    }
    forall w | w in t.workers ensures BatchInv(t, t.workers[w]) {
      assert BatchInv(s, s.workers[w]);
    }
  }

  lemma GroupStep(cfg: Config, s: State, e: Event)
    requires GroupInv(s) && Enabled(cfg, s, e)
    ensures GroupInv(Apply(s, e))
  {
    match e
    case ReadNew(w) => GroupAfterRead(s, w);
    case ClaimIdle(_, _, _) => GroupAfterClaim(cfg, s, e);
    case HandlerReturns(w) => GroupAfterReturn(s, w);
    case Acknowledge(w) => GroupAfterAck(s, w);
    case _ => GroupAfterOther(cfg, s, e);
  }

  lemma StreamGrows(s: State, t: State, m: Message)
    requires s.stream <= t.stream && InStream(s, m)
    ensures InStream(t, m)
  {
    var i :| 0 <= i < |s.stream| && s.stream[i].message == m;
    assert t.stream[i].message == m;
  }

  lemma AppendedIsInStream(s: State, ms: seq<Message>, at: nat, t: State, m: Message)
    requires t.stream == s.stream + Entries(ms, at) && m in ms
    ensures InStream(t, m)
  {
    var k :| 0 <= k < |ms| && ms[k] == m;
    assert t.stream[|s.stream| + k].message == m;
  }

  /** Snapshots and locations survive steps that only add to the queue's history. */
  lemma SnapshotsSurvive(s: State, t: State)
    requires MessageInv(s)
    requires s.stream <= t.stream && s.now <= t.now
    requires forall m :: m in s.due ==> m in t.due && t.due[m] == s.due[m]
    requires forall m :: m in s.delayed ==> m in t.delayed || InStream(t, m)
    requires forall v :: v in t.movers ==> v in s.movers && t.movers[v] == s.movers[v]
    ensures forall v :: v in t.movers ==> SnapshotInv(t, t.movers[v])
  {
    forall v, m | v in t.movers && m in t.movers[v]
      ensures m in t.due && t.due[m] <= t.now && (m in t.delayed || InStream(t, m))
    {
      assert SnapshotInv(s, s.movers[v]);
      if InStream(s, m) {
        StreamGrows(s, t, m);
      }
    }
  }

  lemma LocationsSurvive(s: State, t: State)
    requires MessageInv(s)
    requires s.stream <= t.stream
    requires forall m :: m in s.delayed ==> m in t.delayed || InStream(t, m)
    ensures forall m :: m in s.enqueued ==> m in t.delayed || InStream(t, m)
  {
    forall m | m in s.enqueued ensures m in t.delayed || InStream(t, m) {
      if InStream(s, m) {
        StreamGrows(s, t, m);
      }
    }
  }

  lemma MessageAfterEnqueueNow(cfg: Config, s: State, e: Event)
    requires MessageInv(s) && Enabled(cfg, s, e) && e.EnqueueNow?
    ensures MessageInv(Apply(s, e))
  {
    var t := Apply(s, e);
    LocationsSurvive(s, t);
    SnapshotsSurvive(s, t);
    forall m | m in e.messages ensures InStream(t, m) {
      AppendedIsInStream(s, e.messages, s.now, t, m);
    }
    forall i | 0 <= i < |t.stream| ensures EntryInv(t, t.stream[i]) {
      if i < |s.stream| {
        assert EntryInv(s, s.stream[i]);
      } else {
        assert t.stream[i].message in e.messages;
      }
    }
  }

  lemma MessageAfterEnqueueLater(cfg: Config, s: State, e: Event)
    requires MessageInv(s) && Enabled(cfg, s, e) && e.EnqueueLater?
    ensures MessageInv(Apply(s, e))
  {
    var t := Apply(s, e);
    LocationsSurvive(s, t);
    forall m | m in s.due ensures m in t.due && t.due[m] == s.due[m] {
      assert m in s.enqueued;
    }
    SnapshotsSurvive(s, t);
    forall i | 0 <= i < |t.stream| ensures EntryInv(t, t.stream[i]) {
      assert EntryInv(s, s.stream[i]);
    }
  }

  lemma MessageAfterCommit(cfg: Config, s: State, e: Event)
    requires MessageInv(s) && Enabled(cfg, s, e) && e.MoverCommits?
    ensures MessageInv(Apply(s, e))
  {
    var t := Apply(s, e);
    var items := s.movers[e.mover];
    assert SnapshotInv(s, items);
    forall m | m in items ensures InStream(t, m) {
      AppendedIsInStream(s, items, s.now, t, m);
    }
    LocationsSurvive(s, t);
    SnapshotsSurvive(s, t);
    forall i | 0 <= i < |t.stream| ensures EntryInv(t, t.stream[i]) {
      if i < |s.stream| {
        assert EntryInv(s, s.stream[i]);
      } else {
        assert t.stream[i].message in items;
      }
    }
  }

  /** Nothing moved, and movers hold what they held. */
  lemma MessagesUnmoved(s: State, t: State)
    requires MessageInv(s) && s.now <= t.now
    requires t.stream == s.stream && t.delayed == s.delayed && t.due == s.due && t.enqueued == s.enqueued
    requires forall v :: v in t.movers ==> v in s.movers && t.movers[v] == s.movers[v]
    ensures MessageInv(t)
  {
    LocationsSurvive(s, t);
    SnapshotsSurvive(s, t);
    forall i | 0 <= i < |t.stream| ensures EntryInv(t, t.stream[i]) {
      assert EntryInv(s, s.stream[i]);
    }
  }

  lemma MessageAfterMoverReads(s: State, v: nat, asOf: nat, items: seq<Message>)
    requires MessageInv(s) && ReadyBatch(s, asOf, items)
    ensures MessageInv(Apply(s, MoverReads(v, asOf, items)))
  {
    var t := Apply(s, MoverReads(v, asOf, items));
    if items != [] {
      assert t == s.(movers := s.movers[v := items]);
      assert SnapshotInv(t, items) by {
        assert forall m :: m in items ==> Ready(s, asOf, m);
      }
      forall u | u in t.movers ensures SnapshotInv(t, t.movers[u]) {
        if u != v {
          assert SnapshotInv(s, s.movers[u]);
        }
      }
      forall i | 0 <= i < |t.stream| ensures EntryInv(t, t.stream[i]) {
        assert EntryInv(s, s.stream[i]);
      }
    }
  }

  lemma MessageAfterOther(cfg: Config, s: State, e: Event)
    requires MessageInv(s) && Enabled(cfg, s, e)
    requires !e.EnqueueNow? && !e.EnqueueLater? && !e.MoverCommits?
    ensures MessageInv(Apply(s, e))
  {
    hide MessageInv;
    if e.MoverReads? {
      MessageAfterMoverReads(s, e.mover, e.asOf, e.items);
    } else {
      MessagesUnmoved(s, Apply(s, e));
    }
  }

  lemma MessageStep(cfg: Config, s: State, e: Event)
    requires MessageInv(s) && Enabled(cfg, s, e)
    ensures MessageInv(Apply(s, e))
  {
    match e
    case EnqueueNow(_, _) => MessageAfterEnqueueNow(cfg, s, e);
    case EnqueueLater(_, _) => MessageAfterEnqueueLater(cfg, s, e);
    case MoverCommits(_, _) => MessageAfterCommit(cfg, s, e);
    case _ => MessageAfterOther(cfg, s, e);
  }

  /** Every state of every run satisfies the invariant. */
  lemma {:induction false} RunKeepsInv(cfg: Config, es: seq<Event>, ss: seq<State>, k: nat)
    requires Run(cfg, es, ss) && k < |ss|
    ensures Inv(ss[k])
  {
    if k > 0 {
      RunKeepsInv(cfg, es, ss, k - 1);
      GroupStep(cfg, ss[k - 1], es[k - 1]);
      MessageStep(cfg, ss[k - 1], es[k - 1]);
    }
  }

  // ----- nothing is lost -----

  /** From the oldest unacknowledged entry to the newest there are at most maxStreamLength entries. */
  ghost predicate SpanWithin(cfg: Config, s: State) {
    forall i :: 0 <= i < |s.stream| && i !in s.acked ==> |s.stream| <= i + cfg.maxStreamLength
  }

  /** An entry that still leads to processing, or already did: undelivered, pending or acknowledged. */
  predicate Alive(s: State, i: nat) {
    i in s.acked || (s.trimmed <= i && (s.delivered <= i || i in s.pending))
  }

  predicate Located(s: State, m: Message) {
    m in s.delayed || exists i :: 0 <= i < |s.stream| && s.stream[i].message == m && Alive(s, i)
  }

  ghost predicate TrimmedAreAcked(s: State) {
    forall i :: 0 <= i < s.trimmed ==> i in s.acked
  }

  lemma TrimStep(cfg: Config, s: State, e: Event)
    requires Enabled(cfg, s, e) && TrimmedAreAcked(s)
    requires SpanWithin(cfg, Apply(s, e))
    ensures TrimmedAreAcked(Apply(s, e))
  {
    var t := Apply(s, e);
    assert s.acked <= t.acked;
    assert t.trimmed == s.trimmed || LegalCut(cfg, s, |t.stream|, t.trimmed);
  }

  lemma {:induction false} RunTrimsOnlyAcked(cfg: Config, es: seq<Event>, ss: seq<State>, k: nat)
    requires Run(cfg, es, ss) && k < |ss|
    requires forall j :: 0 <= j <= k ==> SpanWithin(cfg, ss[j])
    ensures TrimmedAreAcked(ss[k])
  {
    if k > 0 {
      RunTrimsOnlyAcked(cfg, es, ss, k - 1);
      assert SpanWithin(cfg, ss[k]);
      TrimStep(cfg, ss[k - 1], es[k - 1]);
    }
  }

  /**
   Queue safety. In every state of a run that keeps the unacknowledged span within the stream bound,
   each stream entry is undelivered, pending or acknowledged, and each enqueued message is delayed
   or has such an entry.
   */
  lemma NothingLost(cfg: Config, es: seq<Event>, ss: seq<State>, k: nat)
    requires Run(cfg, es, ss) && k < |ss|
    requires forall j :: 0 <= j <= k ==> SpanWithin(cfg, ss[j])
    ensures forall i :: 0 <= i < |ss[k].stream| ==> Alive(ss[k], i)
    ensures forall m :: m in ss[k].enqueued ==> Located(ss[k], m)
  {
    RunKeepsInv(cfg, es, ss, k);
    RunTrimsOnlyAcked(cfg, es, ss, k);
    var s := ss[k];
    forall i: nat | i < |s.stream| ensures Alive(s, i) {
      assert i < s.trimmed ==> i in s.acked;
    }
    forall m | m in s.enqueued && m !in s.delayed ensures Located(s, m) {
      assert InStream(s, m);
    }
  }

  /**
   The bound is exact: the XADDs of one transaction may trim an entry if and only if they leave it outside the span,
   whether an enqueue makes them or a mover.
   */
  lemma TrimReaches(cfg: Config, s: State, messages: seq<Message>, i: nat)
    requires GroupInv(s) && Fresh(s, messages)
    requires s.trimmed <= i < |s.stream|
    ensures (exists cut ::
               Enabled(cfg, s, EnqueueNow(messages, cut)) && i < Apply(s, EnqueueNow(messages, cut)).trimmed)
       <==> i + cfg.maxStreamLength < |s.stream| + |messages|
  {
    if i + cfg.maxStreamLength < |s.stream| + |messages| {
      assert LegalCut(cfg, s, |s.stream| + |messages|, i + 1);
      assert Enabled(cfg, s, EnqueueNow(messages, i + 1));
      assert i < Apply(s, EnqueueNow(messages, i + 1)).trimmed;
    }
  }

  lemma MoverTrimReaches(cfg: Config, s: State, mover: nat, i: nat)
    requires GroupInv(s) && mover in s.movers
    requires s.trimmed <= i < |s.stream|
    ensures (exists cut ::
               Enabled(cfg, s, MoverCommits(mover, cut)) && i < Apply(s, MoverCommits(mover, cut)).trimmed)
       <==> i + cfg.maxStreamLength < |s.stream| + |s.movers[mover]|
  {
    if i + cfg.maxStreamLength < |s.stream| + |s.movers[mover]| {
      assert LegalCut(cfg, s, |s.stream| + |s.movers[mover]|, i + 1);
      assert Enabled(cfg, s, MoverCommits(mover, i + 1));
      assert i < Apply(s, MoverCommits(mover, i + 1)).trimmed;
    }
  }

  /** Outside the span a message can vanish: a one-entry stream loses its first message to the second. */
  lemma OverrunLoses()
    ensures exists es: seq<Event>, ss: seq<State> ::
              && Run(Config(1, 0), es, ss)
              && exists m :: m in ss[|es|].enqueued && !Located(ss[|es|], m)
  {
    var cfg, a, b := Config(1, 0), Message(0, true), Message(1, true);
    var e1, e2 := EnqueueNow([a], 0), EnqueueNow([b], 1);
    var s1 := Apply(Init, e1);
    var s2 := Apply(s1, e2);
    assert Enabled(cfg, Init, e1);
    assert s1.enqueued == {a};
    assert Enabled(cfg, s1, e2);
    assert Run(cfg, [e1, e2], [Init, s1, s2]);
    assert s2.stream == [Entry(a, 0), Entry(b, 0)];
    assert a in s2.enqueued && !Alive(s2, 0);
    assert !Located(s2, a);
    assert [Init, s1, s2][|[e1, e2]|] == s2;
  }

  // ----- acknowledgement follows the handler -----

  /** At step j the handler returned for the entry at position i. */
  predicate ReturnedAt(es: seq<Event>, ss: seq<State>, j: nat, i: nat) {
    && j < |es| && |ss| == |es| + 1
    && es[j].HandlerReturns?
    && es[j].worker in ss[j].workers
    && ss[j].workers[es[j].worker].entries != []
    && ss[j].workers[es[j].worker].entries[0] == i
  }

  lemma NewlyHandled(s: State, e: Event, i: nat)
    requires i in Apply(s, e).handled && i !in s.handled
    ensures e.HandlerReturns? && e.worker in s.workers
    ensures s.workers[e.worker].entries != [] && s.workers[e.worker].entries[0] == i
  {
  }

  lemma {:induction false} HandledWasReturned(cfg: Config, es: seq<Event>, ss: seq<State>, k: nat, i: nat)
    requires Run(cfg, es, ss) && k < |ss| && i in ss[k].handled
    ensures exists j :: 0 <= j < k && ReturnedAt(es, ss, j, i)
  {
    hide Apply, Enabled;
    if k > 0 && i in ss[k - 1].handled {
      HandledWasReturned(cfg, es, ss, k - 1, i);
    } else {
      assert k > 0;
      NewlyHandled(ss[k - 1], es[k - 1], i);
      assert ReturnedAt(es, ss, k - 1, i);
    }
  }

  /** Any acknowledged entry either has no data or saw its handler return at an earlier step. */
  lemma AcknowledgedAfterHandler(cfg: Config, es: seq<Event>, ss: seq<State>, k: nat, i: nat)
    requires Run(cfg, es, ss) && k < |ss| && i in ss[k].acked
    ensures i < |ss[k].stream|
    ensures !ss[k].stream[i].message.hasData || exists j :: 0 <= j < k && ReturnedAt(es, ss, j, i)
  {
    RunKeepsInv(cfg, es, ss, k);
    assert Served(ss[k], i);
    if ss[k].stream[i].message.hasData {
      HandledWasReturned(cfg, es, ss, k, i);
    }
  }

  // ----- delayed messages -----

  lemma AppendedNow(s: State, e: Event, i: nat)
    requires |s.stream| <= i < |Apply(s, e).stream|
    ensures Apply(s, e).stream[i].addedAt == s.now
  {
  }

  /** A delayed message enters the stream, at whatever step, no earlier than its ready time. */
  lemma NeverBeforeDue(cfg: Config, es: seq<Event>, ss: seq<State>, k: nat, i: nat)
    requires Run(cfg, es, ss) && k < |es|
    requires |ss[k].stream| <= i < |ss[k + 1].stream|
    requires ss[k + 1].stream[i].message in ss[k + 1].due
    ensures ss[k + 1].due[ss[k + 1].stream[i].message] <= ss[k].now
  {
    RunKeepsInv(cfg, es, ss, k + 1);
    AppendedNow(ss[k], es[k], i);
    var t := ss[k + 1];
    assert EntryInv(t, t.stream[i]);
  }

  function Copies(s: State, m: Message): set<nat> {
    set i: nat | i < |s.stream| && s.stream[i].message == m
  }

  /** Each enqueued message waits and has no stream entry, or no longer waits and has exactly one. */
  ghost predicate OneCopyEach(s: State) {
    forall m :: m in s.enqueued ==> |Copies(s, m)| == if m in s.delayed then 0 else 1
  }

  /** The guard the source drops: every ZREM of the commit removes something. */
  ghost predicate CommitRemovesAll(s: State, e: Event) {
    e.MoverCommits? && e.mover in s.movers ==> forall m :: m in s.movers[e.mover] ==> m in s.delayed
  }

  ghost predicate CleanCommits(es: seq<Event>, ss: seq<State>)
    requires |ss| == |es| + 1
  {
    forall k :: 0 <= k < |es| ==> CommitRemovesAll(ss[k], es[k])
  }

  /** Stream entries are distinct messages, none still waiting, and no mover holds a message twice. */
  ghost predicate SingleInv(s: State) {
    && (forall i, j :: 0 <= i < j < |s.stream| ==> s.stream[i].message != s.stream[j].message)
    && (forall i :: 0 <= i < |s.stream| ==> s.stream[i].message !in s.delayed)
    && (forall v :: v in s.movers ==> NoDuplicates(s.movers[v]))
  }

  lemma SingleAfterEnqueue(cfg: Config, s: State, e: Event)
    requires MessageInv(s) && SingleInv(s) && Enabled(cfg, s, e)
    requires e.EnqueueNow? || e.EnqueueLater?
    ensures SingleInv(Apply(s, e))
  {
    assert forall i :: 0 <= i < |s.stream| ==> EntryInv(s, s.stream[i]);
    assert forall m :: m in s.delayed ==> m in s.enqueued;
  }

  lemma SingleAfterCommit(s: State, v: nat, cut: nat)
    requires SingleInv(s) && v in s.movers && CommitRemovesAll(s, MoverCommits(v, cut))
    ensures SingleInv(Apply(s, MoverCommits(v, cut)))
  {
    var t := Apply(s, MoverCommits(v, cut));
    var items := s.movers[v];
    forall i | 0 <= i < |t.stream| ensures t.stream[i].message !in t.delayed {
      assert i < |s.stream| || t.stream[i].message == items[i - |s.stream|];
    }
  }

  lemma SingleStep(cfg: Config, s: State, e: Event)
    requires MessageInv(s) && SingleInv(s) && Enabled(cfg, s, e) && CommitRemovesAll(s, e)
    ensures SingleInv(Apply(s, e))
  {
    if e.EnqueueNow? || e.EnqueueLater? {
      SingleAfterEnqueue(cfg, s, e);
    } else if e.MoverCommits? {
      SingleAfterCommit(s, e.mover, e.cut);
    }
  }

  lemma {:induction false} RunKeepsSingle(cfg: Config, es: seq<Event>, ss: seq<State>, k: nat)
    requires Run(cfg, es, ss) && CleanCommits(es, ss) && k < |ss|
    ensures SingleInv(ss[k])
  {
    if k > 0 {
      RunKeepsSingle(cfg, es, ss, k - 1);
      RunKeepsInv(cfg, es, ss, k - 1);
      hide Apply, Enabled, MessageInv, SingleInv;
      assert CommitRemovesAll(ss[k - 1], es[k - 1]);
      SingleStep(cfg, ss[k - 1], es[k - 1]);
    }
  }

  /** Each enqueued message always waits in the sorted set or has a stream entry. */
  lemma AtLeastOneCopy(cfg: Config, es: seq<Event>, ss: seq<State>, k: nat, m: Message)
    requires Run(cfg, es, ss) && k < |ss| && m in ss[k].enqueued
    ensures m in ss[k].delayed || |Copies(ss[k], m)| >= 1
  {
    RunKeepsInv(cfg, es, ss, k);
    if m !in ss[k].delayed {
      HasCopy(ss[k], m);
    }
  }

  lemma HasCopy(s: State, m: Message)
    requires InStream(s, m)
    ensures |Copies(s, m)| >= 1
  {
    var i: nat :| i < |s.stream| && s.stream[i].message == m;
    assert i in Copies(s, m);
  }

  lemma SingleMeansOneCopy(s: State)
    requires MessageInv(s) && SingleInv(s)
    ensures OneCopyEach(s)
  {
    forall m | m in s.enqueued ensures |Copies(s, m)| == if m in s.delayed then 0 else 1 {
      if m in s.delayed {
        assert Copies(s, m) == {};
      } else {
        assert InStream(s, m);
        var i: nat :| i < |s.stream| && s.stream[i].message == m;
        assert Copies(s, m) == {i};
      }
    }
  }

  /** A commit adds a stream entry for every message it carries, and loses none. */
  lemma CommitAddsCopy(s: State, v: nat, cut: nat, m: Message)
    requires v in s.movers && m in s.movers[v]
    ensures |Copies(Apply(s, MoverCommits(v, cut)), m)| > |Copies(s, m)|
  {
    var t, items := Apply(s, MoverCommits(v, cut)), s.movers[v];
    var k :| 0 <= k < |items| && items[k] == m;
    var i := |s.stream| + k;
    assert t.stream[i].message == m;
    assert Copies(s, m) + {i} <= Copies(t, m) && i !in Copies(s, m);
    SubsetCount(Copies(s, m) + {i}, Copies(t, m));
  }

  /** A commit of something already moved leaves that message with two entries. */
  lemma StaleCommitDuplicates(cfg: Config, s: State, v: nat, cut: nat, m: Message)
    requires MessageInv(s) && v in s.movers && m in s.movers[v] && m !in s.delayed
    ensures m in s.enqueued && m in Apply(s, MoverCommits(v, cut)).enqueued
    ensures |Copies(Apply(s, MoverCommits(v, cut)), m)| >= 2
  {
    assert SnapshotInv(s, s.movers[v]);
    HasCopy(s, m);
    CommitAddsCopy(s, v, cut, m);
  }

  /**
   Exactly when copying is exact: over a run, every message has one stream copy once it stops waiting and none
   before, in every state, if and only if every commit still finds all that it carries in the sorted set.
   */
  lemma OneCopyIff(cfg: Config, es: seq<Event>, ss: seq<State>)
    requires Run(cfg, es, ss)
    ensures (forall k :: 0 <= k < |ss| ==> OneCopyEach(ss[k])) <==> CleanCommits(es, ss)
  {
    hide Apply, Enabled, OneCopyEach, MessageInv, SingleInv;
    if CleanCommits(es, ss) {
      forall k | 0 <= k < |ss| ensures OneCopyEach(ss[k]) {
        RunKeepsInv(cfg, es, ss, k);
        RunKeepsSingle(cfg, es, ss, k);
        SingleMeansOneCopy(ss[k]);
      }
    } else {
      var k :| 0 <= k < |es| && !CommitRemovesAll(ss[k], es[k]);
      RunKeepsInv(cfg, es, ss, k);
      StaleStep(cfg, ss[k], es[k]);
      assert ss[k + 1] == Apply(ss[k], es[k]);
    }
  }

  lemma StaleStep(cfg: Config, s: State, e: Event)
    requires MessageInv(s) && Enabled(cfg, s, e) && !CommitRemovesAll(s, e)
    ensures !OneCopyEach(Apply(s, e))
  {
    var m :| m in s.movers[e.mover] && m !in s.delayed;
    StaleCommitDuplicates(cfg, s, e.mover, e.cut, m);
  }

  /** No mover reads an item another mover still holds; in particular when reads exclude each other. */
  ghost predicate DisjointReads(es: seq<Event>, ss: seq<State>)
    requires |ss| == |es| + 1
  {
    forall k :: 0 <= k < |es| ==> DisjointRead(ss[k], es[k])
  }

  ghost predicate DisjointRead(s: State, e: Event) {
    e.MoverReads? ==> forall v, m :: v in s.movers && m in s.movers[v] ==> m !in e.items
  }

  /** What movers hold still waits, and no two hold the same. */
  ghost predicate HeldInv(s: State) {
    && (forall v, m :: v in s.movers && m in s.movers[v] ==> m in s.delayed)
    && (forall u, v, m :: u in s.movers && v in s.movers && u != v && m in s.movers[v] ==> m !in s.movers[u])
  }

  lemma HeldStep(cfg: Config, s: State, e: Event)
    requires HeldInv(s) && Enabled(cfg, s, e) && DisjointRead(s, e)
    ensures HeldInv(Apply(s, e)) && CommitRemovesAll(s, e)
  {
    if e.MoverReads? {
      assert forall m :: m in e.items ==> Ready(s, e.asOf, m);
    }
  }

  lemma {:induction false} RunKeepsHeld(cfg: Config, es: seq<Event>, ss: seq<State>, k: nat)
    requires Run(cfg, es, ss) && DisjointReads(es, ss) && k < |ss|
    ensures HeldInv(ss[k])
  {
    hide Apply, Enabled, HeldInv;
    if k > 0 {
      RunKeepsHeld(cfg, es, ss, k - 1);
      assert DisjointRead(ss[k - 1], es[k - 1]);
      HeldStep(cfg, ss[k - 1], es[k - 1]);
    } else {
      InitHoldsNothing();
    }
  }

  lemma InitHoldsNothing()
    ensures HeldInv(Init)
  {
  }

  /** Movers whose reads exclude what others hold commit cleanly, so copying is then exact. */
  lemma ExclusiveReadsCopyOnce(cfg: Config, es: seq<Event>, ss: seq<State>)
    requires Run(cfg, es, ss) && DisjointReads(es, ss)
    ensures CleanCommits(es, ss) && forall k :: 0 <= k < |ss| ==> OneCopyEach(ss[k])
  {
    hide Apply, Enabled, HeldInv, OneCopyEach, CommitRemovesAll;
    forall k | 0 <= k < |es| ensures CommitRemovesAll(ss[k], es[k]) {
      RunKeepsHeld(cfg, es, ss, k);
      assert DisjointRead(ss[k], es[k]);
      HeldStep(cfg, ss[k], es[k]);
    }
    OneCopyIff(cfg, es, ss);
  }

  /** Whenever two movers hold one message, committing one and then the other is possible and duplicates it. */
  lemma TwoHoldersDuplicate(cfg: Config, s: State, u: nat, v: nat, m: Message)
    requires u in s.movers && v in s.movers && u != v && m in s.movers[u] && m in s.movers[v]
    ensures var first := MoverCommits(u, s.trimmed);
            var t := Apply(s, first);
            var second := MoverCommits(v, t.trimmed);
            Enabled(cfg, s, first) && Enabled(cfg, t, second) && |Copies(Apply(t, second), m)| >= 2
  {
    var first := MoverCommits(u, s.trimmed);
    var t := Apply(s, first);
    assert t.movers[v] == s.movers[v];
    CommitAddsCopy(s, u, s.trimmed, m);
    CommitAddsCopy(t, v, t.trimmed, m);
  }

  /** Two movers hold the one delayed message. */
  ghost function BothHold(m: Message): State {
    Init.(delayed := map[m := 0], due := map[m := 0], enqueued := {m}, movers := map[0 := [m], 1 := [m]])
  }

  lemma BothReadFirst(cfg: Config, m: Message) returns (s1: State, s2: State)
    ensures Enabled(cfg, Init, EnqueueLater([m], 0)) && s1 == Apply(Init, EnqueueLater([m], 0))
    ensures Enabled(cfg, s1, MoverReads(0, 0, [m])) && s2 == Apply(s1, MoverReads(0, 0, [m]))
    ensures Enabled(cfg, s2, MoverReads(1, 0, [m])) && BothHold(m) == Apply(s2, MoverReads(1, 0, [m]))
  {
    s1 := Init.(delayed := map[m := 0], due := map[m := 0], enqueued := {m});
    s2 := s1.(movers := map[0 := [m]]);
    assert Apply(Init, EnqueueLater([m], 0)) == s1 by {
      assert Init.delayed + map[m := 0] == map[m := 0];
      assert (map l | l in [m] :: 0) == map[m := 0];
    }
  }

  lemma BothCommit(cfg: Config, m: Message) returns (s4: State, s5: State)
    ensures Enabled(cfg, BothHold(m), MoverCommits(0, 0)) && s4 == Apply(BothHold(m), MoverCommits(0, 0))
    ensures Enabled(cfg, s4, MoverCommits(1, 0)) && s5 == Apply(s4, MoverCommits(1, 0))
    ensures s5.stream == [Entry(m, 0), Entry(m, 0)]
  {
    s4 := Apply(BothHold(m), MoverCommits(0, 0));
    assert s4.stream == [Entry(m, 0)] && s4.movers == map[1 := [m]];
    s5 := Apply(s4, MoverCommits(1, 0));
  }

  /** Two movers that both read before either commits put one delayed message on the stream twice. */
  lemma OverlappingMoversDuplicate(cfg: Config, m: Message)
    ensures exists es: seq<Event>, ss: seq<State> :: Run(cfg, es, ss) && Copies(ss[|es|], m) == {0, 1}
  {
    hide Apply, Enabled;
    var s1, s2 := BothReadFirst(cfg, m);
    var s4, s5 := BothCommit(cfg, m);
    var es, ss := Extend(cfg, [], [Init], EnqueueLater([m], 0));
    es, ss := Extend(cfg, es, ss, MoverReads(0, 0, [m]));
    es, ss := Extend(cfg, es, ss, MoverReads(1, 0, [m]));
    es, ss := Extend(cfg, es, ss, MoverCommits(0, 0));
    es, ss := Extend(cfg, es, ss, MoverCommits(1, 0));
    assert Copies(s5, m) == {0, 1};
  }

  // ----- delayed messages enter the stream in the order of their ready times -----

  ghost predicate DueNoLater(s: State, a: Message, b: Message) {
    a in s.due && b in s.due && s.due[a] <= s.due[b]
  }

  ghost predicate DueInOrder(s: State, items: seq<Message>) {
    forall i, j :: 0 <= i < j < |items| ==> DueNoLater(s, items[i], items[j])
  }

  ghost predicate HeldInOrder(s: State) {
    forall v :: v in s.movers ==> DueInOrder(s, s.movers[v])
  }

  lemma ReadInOrder(s: State, asOf: nat, items: seq<Message>)
    requires MessageInv(s) && ReadyBatch(s, asOf, items)
    ensures DueInOrder(s, items)
  {
    forall i, j | 0 <= i < j < |items| ensures DueNoLater(s, items[i], items[j]) {
      assert Ready(s, asOf, items[i]) && Ready(s, asOf, items[j]);
      assert Score(s, items[i]) <= Score(s, items[j]);
    }
  }

  /** A message once due stays due at that time. */
  lemma DueStays(cfg: Config, s: State, e: Event, m: Message)
    requires MessageInv(s) && Enabled(cfg, s, e) && m in s.due
    ensures m in Apply(s, e).due && Apply(s, e).due[m] == s.due[m]
  {
  }

  lemma SameOrder(s: State, t: State, items: seq<Message>)
    requires DueInOrder(s, items)
    requires forall m :: m in s.due ==> m in t.due && t.due[m] == s.due[m]
    ensures DueInOrder(t, items)
  {
    forall i, j | 0 <= i < j < |items| ensures DueNoLater(t, items[i], items[j]) {
      assert DueNoLater(s, items[i], items[j]);
    }
  }

  lemma OrderStep(cfg: Config, s: State, e: Event)
    requires MessageInv(s) && HeldInOrder(s) && Enabled(cfg, s, e)
    ensures HeldInOrder(Apply(s, e))
  {
    var t := Apply(s, e);
    forall m | m in s.due ensures m in t.due && t.due[m] == s.due[m] {
      DueStays(cfg, s, e, m);
    }
    forall v | v in t.movers ensures DueInOrder(t, t.movers[v]) {
      if e.MoverReads? && e.mover == v {
        ReadInOrder(s, e.asOf, e.items);
        SameOrder(s, t, e.items);
      } else {
        OthersHeld(s, e, v);
        SameOrder(s, t, s.movers[v]);
      }
    }
  }

  lemma OthersHeld(s: State, e: Event, v: nat)
    requires v in Apply(s, e).movers && !(e.MoverReads? && e.mover == v)
    ensures v in s.movers && Apply(s, e).movers[v] == s.movers[v]
  {
  }

  lemma {:induction false} RunKeepsOrder(cfg: Config, es: seq<Event>, ss: seq<State>, k: nat)
    requires Run(cfg, es, ss) && k < |ss|
    ensures HeldInOrder(ss[k])
  {
    if k > 0 {
      hide Apply, Enabled;
      RunKeepsOrder(cfg, es, ss, k - 1);
      RunKeepsInv(cfg, es, ss, k - 1);
      hide HeldInOrder;
      OrderStep(cfg, ss[k - 1], es[k - 1]);
    }
  }

  /** The entries one commit adds to the stream stand in the order of their ready times. */
  lemma CommitsInOrder(cfg: Config, es: seq<Event>, ss: seq<State>, k: nat, i: nat, j: nat)
    requires Run(cfg, es, ss) && k < |es| && es[k].MoverCommits?
    requires |ss[k].stream| <= i < j < |ss[k + 1].stream|
    ensures var a, b := ss[k + 1].stream[i].message, ss[k + 1].stream[j].message;
            DueNoLater(ss[k + 1], a, b)
  {
    RunKeepsOrder(cfg, es, ss, k);
    var s, items := ss[k], ss[k].movers[es[k].mover];
    var n := |s.stream|;
    assert DueInOrder(s, items) && DueNoLater(s, items[i - |s.stream|], items[j - |s.stream|]);
    assert ss[k + 1].stream == s.stream + Entries(items, s.now);
    assert ss[k + 1].stream[i].message == items[i - n] && ss[k + 1].stream[j].message == items[j - n];
  }

  // ----- pending entries change hands by claiming alone -----

  /** One step's changes to an entry's place in the pending list. */
  ghost predicate Handover(cfg: Config, s: State, e: Event, t: State, i: nat) {
    && (i !in s.pending && i in t.pending ==>
          e.ReadNew? && ReadStart(s) <= i < |s.stream| && t.pending[i] == Claim(e.worker, s.now))
    && (i in s.pending && i in t.pending && t.pending[i] != s.pending[i] ==>
          && e.ClaimIdle? && t.pending[i] == Claim(e.worker, s.now)
          && s.trimmed <= i && s.pending[i].at + cfg.claimIdleTime <= s.now)
    && (i in s.pending && i !in t.pending ==> i in t.acked || (e.ClaimIdle? && i < s.trimmed))
  }

  lemma StepHandsOver(cfg: Config, s: State, e: Event, i: nat)
    requires GroupInv(s) && Enabled(cfg, s, e)
    ensures Handover(cfg, s, e, Apply(s, e), i)
  {
    if e.ReadNew? && i in Apply(s, e).pending && i !in s.pending {
      var entries := Range(ReadStart(s), ReadEnd(s));
      var k :| 0 <= k < |entries| && entries[k] == i;
    }
  }

  /**
   Over every run: an entry becomes pending by being read, is handed from one worker to another by claiming alone and
   only once it has been idle long enough since it was last handed over, and leaves by acknowledgement, or, when it was
   trimmed away, by claiming.
   */
  lemma HandoversTakeTime(cfg: Config, es: seq<Event>, ss: seq<State>, k: nat, i: nat)
    requires Run(cfg, es, ss) && k < |es|
    ensures Handover(cfg, ss[k], es[k], ss[k + 1], i)
  {
    RunKeepsInv(cfg, es, ss, k);
    hide GroupInv, MessageInv, Handover;
    StepHandsOver(cfg, ss[k], es[k], i);
  }

  // ----- crash recovery -----

  /** No pending entry was handed over in the future. */
  ghost predicate ClaimsPast(s: State) {
    forall i :: i in s.pending ==> s.pending[i].at <= s.now
  }

  lemma ClaimsStep(cfg: Config, s: State, e: Event)
    requires ClaimsPast(s) && Enabled(cfg, s, e)
    ensures ClaimsPast(Apply(s, e))
  {
  }

  lemma {:induction false} RunKeepsClaims(cfg: Config, es: seq<Event>, ss: seq<State>, k: nat)
    requires Run(cfg, es, ss) && k < |ss|
    ensures ClaimsPast(ss[k])
  {
    hide Apply, Enabled;
    if k > 0 {
      RunKeepsClaims(cfg, es, ss, k - 1);
      hide ClaimsPast;
      ClaimsStep(cfg, ss[k - 1], es[k - 1]);
    }
  }

  /** The state once a worker crashed and time passed. */
  function Crashed(s: State, w: nat, later: nat): State {
    Apply(Apply(s, Abandon(w)), Tick(later))
  }

  /**
   A crash between any two commands is recoverable: what the dropped batch held and the stream still holds is
   acknowledged already or, after the idle time, there for any worker to claim.
   */
  lemma CrashedEntriesAreClaimable(cfg: Config, s: State, w: nat, later: nat, i: nat)
    requires GroupInv(s) && ClaimsPast(s) && w in s.workers && i in s.workers[w].entries
    requires i !in s.acked && s.trimmed <= i && s.now + cfg.claimIdleTime <= later
    ensures Claimable(cfg, Crashed(s, w, later), i)
  {
    assert BatchInv(s, s.workers[w]);
  }
}

/**
 The queue in the source's own form (fedify-sidecar/archive/legacy/fedify-redis-message-queue.ts): methods that
 change the Redis structures in place and choose what Redis would answer. Every state they reach is a state of a
 run of the transition system in WorkQueue.
 */
module QueueDeployment {
  import opened Prelude
  import opened WorkQueue

  // ----- the steps, spelled out -----

  function Scores(messages: seq<Message>, readyAt: int): map<Message, int> {
    map m | m in messages :: readyAt
  }

  lemma LaterIs(s: State, messages: seq<Message>, readyAt: int)
    ensures Apply(s, EnqueueLater(messages, readyAt))
         == s.(delayed := s.delayed + Scores(messages, readyAt),
               due := s.due + Scores(messages, readyAt),
               enqueued := s.enqueued + Elements(messages))
  {
  }

  lemma NowIs(s: State, messages: seq<Message>, cut: nat)
    ensures Apply(s, EnqueueNow(messages, cut))
         == s.(stream := s.stream + Entries(messages, s.now), trimmed := cut,
               enqueued := s.enqueued + Elements(messages))
  {
  }

  lemma ReadIs(s: State, worker: nat)
    ensures var entries := Range(ReadStart(s), ReadEnd(s));
            Apply(s, ReadNew(worker))
            == if entries == [] then s
               else s.(delivered := ReadEnd(s),
                       pending := Stamp(s.pending, Elements(entries), Claim(worker, s.now)),
                       workers := s.workers[worker := Batch(entries, false)])
  {
  }

  lemma ClaimIs(cfg: Config, s: State, worker: nat, taken: seq<nat>, purged: set<nat>)
    requires worker !in s.workers && NoDuplicates(taken) && |taken| <= CLAIM_COUNT
    requires forall i :: i in taken ==> Claimable(cfg, s, i)
    requires forall i :: i in purged ==> i in s.pending && i < s.trimmed
    ensures Enabled(cfg, s, ClaimIdle(worker, taken, purged))
    ensures Apply(s, ClaimIdle(worker, taken, purged))
         == s.(pending := Stamp(s.pending - purged, Elements(taken), Claim(worker, s.now)),
               workers := if taken == [] then s.workers else s.workers[worker := Batch(taken, false)])
  {
  }

  lemma AckIs(s: State, worker: nat)
    requires worker in s.workers && s.workers[worker].entries != []
    ensures forall cfg :: Enabled(cfg, s, Acknowledge(worker)) <==> s.workers[worker].returned
    ensures var entries := s.workers[worker].entries;
            Apply(s, Acknowledge(worker))
            == s.(acked := s.acked + {entries[0]}, pending := RemoveKey(s.pending, entries[0]),
                  workers := if |entries| == 1 then RemoveKey(s.workers, worker)
                             else s.workers[worker := Batch(entries[1..], false)])
  {
  }

  lemma CommitIs(cfg: Config, s: State, mover: nat, cut: nat)
    requires mover in s.movers
    ensures LegalCut(cfg, s, |s.stream| + |s.movers[mover]|, cut) ==> Enabled(cfg, s, MoverCommits(mover, cut))
    ensures Apply(s, MoverCommits(mover, cut))
         == s.(stream := s.stream + Entries(s.movers[mover], s.now), trimmed := cut,
               delayed := s.delayed - Elements(s.movers[mover]), movers := RemoveKey(s.movers, mover))
  {
  }

  lemma TrimmedWithin(cfg: Config, history: seq<Event>, states: seq<State>)
    requires Run(cfg, history, states)
    ensures states[|history|].trimmed <= |states[|history|].stream|
  {
    RunKeepsInv(cfg, history, states, |history|);
  }

  lemma FreshIsEnabled(cfg: Config, s: State, messages: seq<Message>, readyAt: int, cut: nat)
    requires Fresh(s, messages)
    ensures Enabled(cfg, s, EnqueueLater(messages, readyAt))
    ensures LegalCut(cfg, s, |s.stream| + |messages|, cut) ==> Enabled(cfg, s, EnqueueNow(messages, cut))
  {
  }

  lemma OneScore(message: Message, readyAt: int, m: map<Message, int>)
    ensures m + Scores([message], readyAt) == m[message := readyAt]
  {
  }

  /** The current entry of a worker is in the stream. */
  lemma CurrentEntry(cfg: Config, history: seq<Event>, states: seq<State>, worker: nat)
    requires Run(cfg, history, states) && worker in states[|history|].workers
    ensures var s := states[|history|];
            s.workers[worker].entries != [] && s.workers[worker].entries[0] < |s.stream|
  {
    RunKeepsInv(cfg, history, states, |history|);
    var s := states[|history|];
    assert BatchInv(s, s.workers[worker]);
    assert s.workers[worker].entries[0] in s.workers[worker].entries;
  }

  lemma HeldIsClaimable(cfg: Config, history: seq<Event>, states: seq<State>, crashed: nat, later: nat)
    requires Run(cfg, history, states) && crashed in states[|history|].workers
    requires states[|history|].now + cfg.claimIdleTime <= later
    ensures var s := states[|history|];
            forall i :: i in s.workers[crashed].entries ==>
              i < |s.stream| && (Settled(s, i) || Claimable(cfg, Crashed(s, crashed, later), i))
  {
    RunKeepsInv(cfg, history, states, |history|);
    RunKeepsClaims(cfg, history, states, |history|);
    var s := states[|history|];
    assert BatchInv(s, s.workers[crashed]);
    hide ClaimsPast, Claimable, Crashed;
    forall i | i in s.workers[crashed].entries && !Settled(s, i)
      ensures Claimable(cfg, Crashed(s, crashed, later), i)
    {
      CrashedEntriesAreClaimable(cfg, s, crashed, later, i);
    }
  }

  function AfterMessage(s: State, worker: nat): State {
    Apply(Apply(s, HandlerReturns(worker)), Acknowledge(worker))
  }

  /** Those of the entries that the handler sees: the ones with data. */
  function Seen(s: State, entries: seq<nat>): set<nat> {
    set i | i in entries && i < |s.stream| && s.stream[i].message.hasData
  }

  /** A message handled and acknowledged: its entry alone leaves the pending list. */
  lemma MessageIs(s: State, worker: nat)
    requires worker in s.workers && s.workers[worker].entries != []
    ensures var entries := s.workers[worker].entries;
            AfterMessage(s, worker)
            == s.(pending := RemoveKey(s.pending, entries[0]), acked := s.acked + {entries[0]},
                  handled := s.handled + Seen(s, [entries[0]]),
                  workers := if |entries| == 1 then RemoveKey(s.workers, worker)
                             else s.workers[worker := Batch(entries[1..], false)])
  {
    var i := s.workers[worker].entries[0];
    assert Seen(s, [i]) == if i < |s.stream| && s.stream[i].message.hasData then {i} else {};
  }

  /** Some message of a non-empty set has the least score. */
  lemma {:induction false} LeastExists(ready: set<Message>, scores: map<Message, int>) returns (least: Message)
    requires ready != {} && forall m :: m in ready ==> m in scores
    ensures least in ready && forall m :: m in ready ==> scores[least] <= scores[m]
    decreases |ready|
  {
    least :| least in ready;
    var rest := ready - {least};
    if rest != {} {
      var other := LeastExists(rest, scores);
      if scores[other] < scores[least] {
        least := other;
      }
    }
  }

  // ----- one batch -----

  /** The worker has a batch with a current entry still to be handled. */
  ghost predicate Current(s: State, worker: nat) {
    worker in s.workers && !s.workers[worker].returned && s.workers[worker].entries != []
  }

  /** The handler throws on this entry: it has data, and the handler rejects it. */
  ghost predicate Rejects(s: State, throws: nat -> bool, i: nat) {
    i < |s.stream| && s.stream[i].message.hasData && throws(i)
  }

  /**
   How far a batch got: entry by entry, each one not rejected, until the batch was done, the handler rejected the next
   entry, or the signal had passed its last check. This settles all three numbers.
   */
  ghost predicate Follows(
      s: State, throws: nat -> bool, entries: seq<nat>, patience: nat, done: nat, threw: bool, left: nat)
  {
    && done <= |entries| && left + done + (if threw then 1 else 0) == patience
    && (forall k :: 0 <= k < done ==> !Rejects(s, throws, entries[k]))
    && if threw then done < |entries| && Rejects(s, throws, entries[done]) else done == |entries| || left == 0
  }

  /** A batch can go one way only. */
  lemma OneOutcome(
      s: State, throws: nat -> bool, entries: seq<nat>, patience: nat,
      done: nat, threw: bool, left: nat, done': nat, threw': bool, left': nat)
    requires Follows(s, throws, entries, patience, done, threw, left)
    requires Follows(s, throws, entries, patience, done', threw', left')
    ensures done == done' && threw == threw' && left == left'
  {
  }

  /** The first entries were handled and acknowledged, and the worker is free. */
  function Finished(s: State, worker: nat, entries: seq<nat>, done: nat): State
    requires done <= |entries|
  {
    s.(pending := s.pending - Elements(entries[..done]), acked := s.acked + Elements(entries[..done]),
       handled := s.handled + Seen(s, entries[..done]), workers := RemoveKey(s.workers, worker))
  }

  function Freed(s: State, worker: nat): State {
    s.(workers := RemoveKey(s.workers, worker))
  }

  /** The batch is processed up to `done`, and the worker holds the rest of it. */
  ghost predicate Underway(s: State, t: State, worker: nat, entries: seq<nat>, done: nat) {
    && done <= |entries| && Freed(t, worker) == Finished(s, worker, entries, done)
    && if worker in t.workers then done < |entries| && t.workers[worker] == Batch(entries[done..], false)
       else done == |entries|
  }

  lemma NothingProcessed(s: State, worker: nat)
    requires Current(s, worker)
    ensures Underway(s, s, worker, s.workers[worker].entries, 0)
  {
    var entries := s.workers[worker].entries;
    assert entries[..0] == [] && entries[0..] == entries && Elements<nat>([]) == {} && Seen(s, []) == {};
  }

  lemma UnderwayIs(s: State, t: State, worker: nat, entries: seq<nat>, done: nat)
    requires Underway(s, t, worker, entries, done)
    ensures done <= |entries| && t.stream == s.stream
    ensures worker in t.workers ==>
              Current(t, worker) && done < |entries| && t.workers[worker].entries[0] == entries[done]
    ensures Freed(t, worker) == Finished(s, worker, entries, done) && worker !in Freed(t, worker).workers
    ensures worker !in t.workers ==> done == |entries| && t == Finished(s, worker, entries, done)
  {
    if worker !in t.workers {
      assert RemoveKey(t.workers, worker) == t.workers;
    }
  }

  lemma MessageMoves(s: State, t: State, worker: nat, entries: seq<nat>, done: nat)
    requires Underway(s, t, worker, entries, done) && worker in t.workers
    ensures t.workers[worker].entries != [] && done < |entries|
    ensures forall throws :: Rejects(t, throws, t.workers[worker].entries[0]) == Rejects(s, throws, entries[done])
    ensures Underway(s, AfterMessage(t, worker), worker, entries, done + 1)
  {
    MessageIs(t, worker);
    hide Apply, AfterMessage;
    var i := entries[done];
    assert entries[..done + 1] == entries[..done] + [i] && entries[done..][1..] == entries[done + 1..];
    assert Elements(entries[..done + 1]) == Elements(entries[..done]) + {i};
    assert Seen(s, entries[..done + 1]) == Seen(s, entries[..done]) + Seen(t, [i]);
    var u := AfterMessage(t, worker);
    assert RemoveKey(u.workers, worker) == RemoveKey(t.workers, worker);
    assert u.pending == s.pending - Elements(entries[..done + 1]);
  }

  // ----- one reading or claiming -----

  /**
   A batch taken and worked through: the entries taken, those forgotten on the way, how many were acknowledged,
   whether the handler threw, and how many checks of the signal are left.
   */
  datatype Pass = Pass(taken: seq<nat>, purged: set<nat>, done: nat, threw: bool, left: nat)

  function NoPass(left: nat): Pass {
    Pass([], {}, 0, false, left)
  }

  /** Entries taken now belong to the worker, and those acknowledged are pending no more. */
  function AfterPass(s: State, worker: nat, p: Pass): State
    requires p.done <= |p.taken|
  {
    s.(pending := Stamp(s.pending - p.purged, Elements(p.taken), Claim(worker, s.now)) - Elements(p.taken[..p.done]),
       acked := s.acked + Elements(p.taken[..p.done]),
       handled := s.handled + Seen(s, p.taken[..p.done]))
  }

  /** A first check of the signal, and the batch. */
  ghost predicate PassFollows(s: State, throws: nat -> bool, p: Pass, patience: nat) {
    if patience == 0 then p == NoPass(0) else Follows(s, throws, p.taken, patience - 1, p.done, p.threw, p.left)
  }

  /** Every idle entry before `until` was taken. */
  ghost predicate TookAllIdle(cfg: Config, s: State, taken: seq<nat>, until: nat) {
    forall i: nat :: i < until && Claimable(cfg, s, i) ==> i in taken
  }

  /** What XAUTOCLAIM may take and forget: at most ten entries, and unless ten were found every idle one scanned. */
  ghost predicate Claims(cfg: Config, s: State, until: nat, taken: seq<nat>, purged: set<nat>) {
    && NoDuplicates(taken) && |taken| + |purged| <= CLAIM_COUNT
    && (forall i :: i in taken ==> Claimable(cfg, s, i))
    && (forall i :: i in purged ==> i in s.pending && i < s.trimmed)
    && (|taken| + |purged| < CLAIM_COUNT ==> TookAllIdle(cfg, s, taken, until))
  }

  ghost predicate ClaimPass(cfg: Config, s: State, until: nat, throws: nat -> bool, patience: nat, p: Pass) {
    PassFollows(s, throws, p, patience) && (patience > 0 ==> Claims(cfg, s, until, p.taken, p.purged))
  }

  ghost predicate ReadPass(s: State, throws: nat -> bool, patience: nat, p: Pass) {
    && PassFollows(s, throws, p, patience) && p.purged == {}
    && (patience > 0 ==> p.taken == Range(ReadStart(s), ReadEnd(s)))
  }

  function AfterRead(s: State, worker: nat, p: Pass): State
    requires p.done <= |p.taken|
  {
    AfterPass(s, worker, p).(delivered := if p.taken == [] then s.delivered else ReadEnd(s))
  }

  /** A worker took these entries and holds them, or is free if there are none. */
  ghost predicate Took(s: State, t: State, worker: nat, taken: seq<nat>, purged: set<nat>) {
    && t == s.(pending := Stamp(s.pending - purged, Elements(taken), Claim(worker, s.now)),
               workers := t.workers, delivered := t.delivered)
    && RemoveKey(t.workers, worker) == s.workers
    && if taken == [] then worker !in t.workers else worker in t.workers && t.workers[worker] == Batch(taken, false)
  }

  lemma ClaimHolds(s: State, worker: nat, taken: seq<nat>, purged: set<nat>)
    requires worker !in s.workers
    ensures var t := Apply(s, ClaimIdle(worker, taken, purged));
            Took(s, t, worker, taken, purged) && t.delivered == s.delivered && (taken != [] ==> Current(t, worker))
  {
  }

  lemma ReadHolds(s: State, worker: nat)
    requires worker !in s.workers
    ensures var t, entries := Apply(s, ReadNew(worker)), Range(ReadStart(s), ReadEnd(s));
            && Took(s, t, worker, entries, {}) && (entries != [] ==> Current(t, worker))
            && t.delivered == if entries == [] then s.delivered else ReadEnd(s)
  {
    ReadIs(s, worker);
    hide Apply, ReadStart, ReadEnd;
    assert s.pending - {} == s.pending;
    if ReadStart(s) == ReadEnd(s) {
      assert Stamp(s.pending, Elements<nat>([]), Claim(worker, s.now)) == s.pending;
    }
  }

  lemma NothingTaken(s: State, t: State, worker: nat, p: Pass)
    requires Took(s, t, worker, [], p.purged) && p.taken == [] && p.done == 0
    ensures t == AfterPass(s, worker, p).(delivered := t.delivered) && AfterPass(s, worker, p).delivered == s.delivered
  {
    assert RemoveKey(t.workers, worker) == t.workers;
    assert Elements<nat>([]) == {} && Seen(s, []) == {} && p.taken[..0] == [];
  }

  lemma NoPassIs(s: State, worker: nat, left: nat)
    ensures AfterPass(s, worker, NoPass(left)) == s && AfterRead(s, worker, NoPass(left)) == s
  {
    assert Elements<nat>([]) == {} && Seen(s, []) == {};
    assert Stamp(s.pending - {}, {}, Claim(worker, s.now)) - {} == s.pending;
  }

  lemma BatchDone(s: State, t: State, worker: nat, p: Pass, throws: nat -> bool, patience: nat)
    requires Took(s, t, worker, p.taken, p.purged) && Follows(t, throws, p.taken, patience, p.done, p.threw, p.left)
    ensures Finished(t, worker, p.taken, p.done) == AfterPass(s, worker, p).(delivered := t.delivered)
    ensures AfterPass(s, worker, p).delivered == s.delivered
    ensures Follows(s, throws, p.taken, patience, p.done, p.threw, p.left)
  {
    assert Seen(t, p.taken[..p.done]) == Seen(s, p.taken[..p.done]);
  }

  // ----- one round of the loop -----

  /** The ready messages read leave the delayed set and become the newest entries, each once. */
  ghost predicate Moves(cfg: Config, s: State, t: State, asOf: nat, moved: seq<Message>) {
    && ReadyBatch(s, asOf, moved) && LegalCut(cfg, s, |s.stream| + |moved|, t.trimmed)
    && t == s.(stream := s.stream + Entries(moved, s.now), delayed := s.delayed - Elements(moved), trimmed := t.trimmed)
  }

  /** Claim and process, read and process, move; what follows a throw is skipped. */
  ghost predicate Round(
      cfg: Config, s: State, t: State, worker: nat, asOf: nat, until: nat, throws: nat -> bool, patience: nat,
      claim: Pass, read: Pass, moved: seq<Message>)
  {
    && ClaimPass(cfg, s, until, throws, patience, claim)
    && var a := AfterPass(s, worker, claim);
       if claim.threw then read == NoPass(claim.left) && moved == [] && t == a
       else
         && ReadPass(a, throws, claim.left, read)
         && var b := AfterRead(a, worker, read);
            if read.threw then moved == [] && t == b else Moves(cfg, b, t, asOf, moved)
  }

  // ----- a handler that never throws -----

  ghost predicate Never(throws: nat -> bool) {
    forall i :: !throws(i)
  }

  /** Checks of the signal a round makes at most: the loop's own, and for each batch one and one for each entry. */
  const ROUND_CHECKS: nat := 3 + CLAIM_COUNT + READ_COUNT

  lemma PassIsClean(s: State, throws: nat -> bool, p: Pass, patience: nat)
    requires PassFollows(s, throws, p, patience) && Never(throws)
    ensures !p.threw && p.left <= patience
    ensures patience > |p.taken| ==> p.done == |p.taken| && p.left == patience - 1 - |p.taken|
  {
  }

  ghost predicate PendingDelivered(s: State) {
    forall i :: i in s.pending ==> i < s.delivered
  }

  lemma ClaimedLeave(cfg: Config, s: State, worker: nat, until: nat, p: Pass)
    requires Claims(cfg, s, until, p.taken, p.purged) && p.done == |p.taken|
    ensures AfterPass(s, worker, p).pending == s.pending - p.purged - Elements(p.taken)
    ensures AfterPass(s, worker, p).acked == s.acked + Elements(p.taken)
    ensures |AfterPass(s, worker, p).pending| == |s.pending| - |p.taken| - |p.purged|
  {
    hide Stamp, Claimable, NoDuplicates, TookAllIdle, Seen;
    assert p.taken[..p.done] == p.taken;
    DistinctCount(p.taken);
    Unstamped(s.pending - p.purged, Elements(p.taken), Claim(worker, s.now));
    assert Elements(p.taken) <= s.pending.Keys && Elements(p.taken) !! p.purged by {
      ClaimsApart(cfg, s, until, p.taken, p.purged);
    }
    TwoGone(s.pending, p.purged, Elements(p.taken));
  }

  lemma Unstamped(pending: map<nat, Claim>, entries: set<nat>, c: Claim)
    ensures Stamp(pending, entries, c) - entries == pending - entries
  {
  }

  lemma ClaimsApart(cfg: Config, s: State, until: nat, taken: seq<nat>, purged: set<nat>)
    requires Claims(cfg, s, until, taken, purged)
    ensures Elements(taken) <= s.pending.Keys && purged <= s.pending.Keys && Elements(taken) !! purged
  {
  }

  lemma TwoGone<V>(m: map<nat, V>, a: set<nat>, b: set<nat>)
    requires a <= m.Keys && b <= m.Keys && a !! b
    ensures |m - a - b| == |m| - |a| - |b|
  {
    assert (m - a - b).Keys == m.Keys - a - b;
    assert |m - a - b| == |(m - a - b).Keys| && |m| == |m.Keys|;
  }

  lemma ReadLeaveNothing(s: State, worker: nat, p: Pass)
    requires PendingDelivered(s) && p.taken == Range(ReadStart(s), ReadEnd(s)) && p.purged == {} && p.done == |p.taken|
    ensures var t := AfterRead(s, worker, p);
            && t.pending == s.pending && t.acked == s.acked + Elements(p.taken)
            && t.delivered >= s.delivered && ReadStart(t) == ReadEnd(s)
            && forall i :: ReadStart(s) <= i < ReadEnd(s) ==> i in t.acked
  {
    assert p.taken[..p.done] == p.taken;
    forall i | ReadStart(s) <= i < ReadEnd(s) ensures i in p.taken {
      assert p.taken[i - ReadStart(s)] == i;
    }
  }

  /** Acknowledged, or no longer in the stream. */
  predicate Settled(s: State, i: nat) {
    i in s.acked || i < s.trimmed
  }

  ghost predicate Onward(s: State, t: State) {
    s.acked <= t.acked && s.trimmed <= t.trimmed && s.stream <= t.stream
  }

  /** All idle entries scanned are settled. */
  ghost predicate IdleSettled(cfg: Config, s: State, t: State, until: nat) {
    forall i: nat :: i < until && Claimable(cfg, s, i) ==> Settled(t, i)
  }

  /** After so many clean rounds: what was read in them is settled. */
  ghost predicate ReadSoFar(s: State, t: State, rounds: nat) {
    && ReadStart(t) >= Min(|s.stream|, ReadStart(s) + rounds * READ_COUNT)
    && (forall i :: ReadStart(s) <= i < ReadStart(t) ==> Settled(t, i))
  }

  /** And what was idle is settled or still there to be claimed, all of it settled unless each claim found ten. */
  ghost predicate ClaimedSoFar(cfg: Config, s: State, t: State, until: nat, rounds: nat) {
    && (forall i: nat :: i < until && Claimable(cfg, s, i) ==> Settled(t, i) || Claimable(cfg, t, i))
    && (IdleSettled(cfg, s, t, until) || |t.pending| + rounds * CLAIM_COUNT <= |s.pending|)
  }

  ghost predicate Progress(cfg: Config, s: State, t: State, until: nat, rounds: nat) {
    Onward(s, t) && ReadSoFar(s, t, rounds) && ClaimedSoFar(cfg, s, t, until, rounds)
  }

  lemma ReadingProgresses(start: State, s: State, t: State, taken: seq<nat>, purged: set<nat>, rounds: nat)
    requires ReadSoFar(start, s, rounds) && start.stream <= s.stream && Onward(s, t) && RoundDone(s, t, taken, purged)
    ensures ReadSoFar(start, t, rounds + 1)
  {
    forall i | ReadStart(start) <= i < ReadStart(t) ensures Settled(t, i) {
      assert i < ReadStart(s) ==> Settled(s, i);
    }
  }

  lemma ClaimingProgresses(
      cfg: Config, start: State, s: State, t: State, until: nat, taken: seq<nat>, purged: set<nat>, rounds: nat)
    requires ClaimedSoFar(cfg, start, s, until, rounds) && Onward(s, t) && t.now == s.now
    requires Claims(cfg, s, until, taken, purged) && RoundDone(s, t, taken, purged)
    ensures ClaimedSoFar(cfg, start, t, until, rounds + 1)
  {
    forall i: nat | i < until && Claimable(cfg, start, i) ensures Settled(t, i) || Claimable(cfg, t, i) {
      assert Settled(s, i) || Claimable(cfg, s, i);
    }
    if |taken| + |purged| < CLAIM_COUNT {
      forall i: nat | i < until && Claimable(cfg, start, i) ensures Settled(t, i) {
        assert Settled(s, i) || Claimable(cfg, s, i);
      }
    }
  }

  /** Everything is settled but what was pending and could not be claimed yet. */
  ghost predicate Drained(cfg: Config, s: State, t: State, until: nat) {
    forall i: nat :: i < |s.stream| ==> Settled(t, i) || (i in s.pending && !(i < until && Claimable(cfg, s, i)))
  }

  lemma RoundGoesOnward(
      cfg: Config, s: State, t: State, worker: nat, asOf: nat, until: nat, throws: nat -> bool, patience: nat,
      claim: Pass, read: Pass, moved: seq<Message>)
    requires Round(cfg, s, t, worker, asOf, until, throws, patience, claim, read, moved)
    ensures Onward(s, t) && t.now == s.now && t.workers == s.workers && t.movers == s.movers
    ensures read.left <= patience
  {
  }

  lemma RoundNeverThrew(
      cfg: Config, s: State, t: State, worker: nat, asOf: nat, until: nat, throws: nat -> bool, patience: nat,
      claim: Pass, read: Pass, moved: seq<Message>)
    requires Round(cfg, s, t, worker, asOf, until, throws, patience, claim, read, moved) && Never(throws)
    ensures !claim.threw && !read.threw
  {
  }

  /** All entries claimed are acknowledged. */
  ghost predicate ClaimedAll(s: State, a: State, taken: seq<nat>, purged: set<nat>) {
    && PendingDelivered(a) && a.pending == s.pending - purged - Elements(taken)
    && |a.pending| == |s.pending| - |taken| - |purged| && a.acked == s.acked + Elements(taken)
    && ReadStart(a) == ReadStart(s) && ReadEnd(a) == ReadEnd(s)
  }

  lemma ClaimedDelivered(s: State, a: State, taken: seq<nat>, purged: set<nat>)
    requires ClaimedAll(s, a, taken, purged)
    ensures PendingDelivered(a)
  {
  }

  /** All entries read are acknowledged. */
  ghost predicate ReadAll(s: State, b: State) {
    && b.pending == s.pending && s.acked <= b.acked && ReadStart(b) == ReadEnd(s) && b.trimmed == s.trimmed
    && forall i :: ReadStart(s) <= i < ReadEnd(s) ==> i in b.acked
  }

  /** What a round with checks enough leaves behind. */
  ghost predicate RoundDone(s: State, t: State, taken: seq<nat>, purged: set<nat>) {
    && t.pending == s.pending - purged - Elements(taken) && |t.pending| == |s.pending| - |taken| - |purged|
    && Elements(taken) <= t.acked && ReadStart(t) >= ReadEnd(s)
    && forall i :: ReadStart(s) <= i < ReadStart(t) ==> Settled(t, i)
  }

  lemma PartsAddUp(cfg: Config, s: State, a: State, b: State, t: State, asOf: nat, taken: seq<nat>, purged: set<nat>,
                   moved: seq<Message>)
    requires ClaimedAll(s, a, taken, purged) && ReadAll(a, b) && Moves(cfg, b, t, asOf, moved)
    ensures RoundDone(s, t, taken, purged)
  {
    MovesKeep(cfg, b, t, asOf, moved);
    hide Moves, ReadEnd, PendingDelivered;
  }

  lemma CleanClaim(
      cfg: Config, s: State, worker: nat, until: nat, throws: nat -> bool, patience: nat, p: Pass)
    requires ClaimPass(cfg, s, until, throws, patience, p) && PendingDelivered(s)
    requires Never(throws) && patience > CLAIM_COUNT
    ensures p.done <= |p.taken| && !p.threw && p.left + CLAIM_COUNT + 1 >= patience
    ensures Claims(cfg, s, until, p.taken, p.purged)
    ensures ClaimedAll(s, AfterPass(s, worker, p), p.taken, p.purged)
  {
    PassIsClean(s, throws, p, patience);
    hide Never, Claimable, NoDuplicates, TookAllIdle, PassFollows;
    ClaimedLeave(cfg, s, worker, until, p);
  }

  lemma CleanRead(s: State, worker: nat, throws: nat -> bool, patience: nat, p: Pass)
    requires ReadPass(s, throws, patience, p) && PendingDelivered(s) && Never(throws) && patience > READ_COUNT
    ensures p.done <= |p.taken| && !p.threw && p.left + READ_COUNT + 1 >= patience
    ensures ReadAll(s, AfterRead(s, worker, p))
  {
    PassIsClean(s, throws, p, patience);
    ReadLeaveNothing(s, worker, p);
  }

  lemma MovesKeep(cfg: Config, s: State, t: State, asOf: nat, moved: seq<Message>)
    requires Moves(cfg, s, t, asOf, moved)
    ensures t.pending == s.pending && t.acked == s.acked && t.delivered == s.delivered && t.trimmed >= s.trimmed
    ensures t.now == s.now && s.stream <= t.stream && t.workers == s.workers && t.movers == s.movers
    ensures ReadStart(s) <= ReadStart(t) <= Max(ReadStart(s), t.trimmed)
  {
  }

  /** A round with checks enough does all it took up. */
  lemma CleanRound(
      cfg: Config, s: State, t: State, worker: nat, asOf: nat, until: nat, throws: nat -> bool, patience: nat,
      claim: Pass, read: Pass, moved: seq<Message>)
    requires Round(cfg, s, t, worker, asOf, until, throws, patience, claim, read, moved)
    requires PendingDelivered(s) && Never(throws) && patience + 1 >= ROUND_CHECKS
    ensures Claims(cfg, s, until, claim.taken, claim.purged) && read.left + ROUND_CHECKS >= patience + 1
    ensures RoundDone(s, t, claim.taken, claim.purged)
  {
    hide ClaimPass, ReadPass, AfterPass, AfterRead, Moves, Claims, Never, ClaimedAll, ReadAll, RoundDone;
    CleanClaim(cfg, s, worker, until, throws, patience, claim);
    var a := AfterPass(s, worker, claim);
    assert PendingDelivered(a) by {
      ClaimedDelivered(s, a, claim.taken, claim.purged);
    }
    hide PendingDelivered;
    CleanRead(a, worker, throws, claim.left, read);
    PartsAddUp(cfg, s, a, AfterRead(a, worker, read), t, asOf, claim.taken, claim.purged, moved);
  }

  lemma RoundProgresses(
      cfg: Config, start: State, s: State, t: State, worker: nat, asOf: nat, until: nat, throws: nat -> bool,
      patience: nat, claim: Pass, read: Pass, moved: seq<Message>, rounds: nat)
    requires Round(cfg, s, t, worker, asOf, until, throws, patience, claim, read, moved)
    requires PendingDelivered(s) && Never(throws) && patience + 1 >= ROUND_CHECKS
    requires Progress(cfg, start, s, until, rounds)
    ensures Progress(cfg, start, t, until, rounds + 1) && read.left + ROUND_CHECKS >= patience + 1
  {
    RoundGoesOnward(cfg, s, t, worker, asOf, until, throws, patience, claim, read, moved);
    CleanRound(cfg, s, t, worker, asOf, until, throws, patience, claim, read, moved);
    OnwardChain(start, s, t);
    assert start.stream <= s.stream;
    hide Round, PendingDelivered, Never, RoundDone, ReadSoFar, ClaimedSoFar, Claims, Onward;
    ReadingProgresses(start, s, t, claim.taken, claim.purged, rounds);
    ClaimingProgresses(cfg, start, s, t, until, claim.taken, claim.purged, rounds);
  }

  /** More rounds than tens of entries, pending or in the stream, settle everything. */
  lemma ProgressDrains(cfg: Config, s: State, t: State, until: nat, rounds: nat)
    requires GroupInv(s) && Progress(cfg, s, t, until, rounds)
    requires rounds > Max(|s.pending|, |s.stream|) / 10
    ensures Drained(cfg, s, t, until)
  {
    assert IdleSettled(cfg, s, t, until) && ReadStart(t) >= |s.stream|;
  }

  lemma DrainedStays(cfg: Config, s: State, t: State, u: State, until: nat)
    requires Drained(cfg, s, t, until) && Onward(t, u)
    ensures Drained(cfg, s, u, until)
  {
  }

  lemma NoProgressYet(cfg: Config, s: State, until: nat)
    ensures Progress(cfg, s, s, until, 0)
  {
  }

  /** Checks of the signal that let the loop settle all there is. */
  function Budget(s: State): nat {
    ROUND_CHECKS * (Max(|s.pending|, |s.stream|) / 10 + 1)
  }

  /** Where the loop stands when the handler never throws: done, or so many clean rounds on. */
  ghost predicate OnTheWay(cfg: Config, s: State, t: State, until: nat, patience: nat, left: nat) {
    || Drained(cfg, s, t, until)
    || exists rounds: nat :: Progress(cfg, s, t, until, rounds) && left + ROUND_CHECKS * rounds >= patience
  }

  lemma RoundsEnough(rounds: nat, tens: nat)
    requires ROUND_CHECKS + ROUND_CHECKS * rounds > ROUND_CHECKS * (tens + 1)
    ensures rounds > tens
  {
  }

  lemma LateMeansDrained(cfg: Config, s: State, t: State, until: nat, patience: nat, left: nat)
    requires GroupInv(s) && OnTheWay(cfg, s, t, until, patience, left) && patience > Budget(s) && left <= ROUND_CHECKS
    ensures Drained(cfg, s, t, until)
  {
    if !Drained(cfg, s, t, until) {
      hide Progress, Drained, GroupInv;
      var rounds: nat :| Progress(cfg, s, t, until, rounds) && left + ROUND_CHECKS * rounds >= patience;
      RoundsEnough(rounds, Max(|s.pending|, |s.stream|) / 10);
      ProgressDrains(cfg, s, t, until, rounds);
    }
  }

  lemma RoundOnTheWay(
      cfg: Config, start: State, s: State, t: State, worker: nat, asOf: nat, until: nat, throws: nat -> bool,
      patience: nat, left: nat, claim: Pass, read: Pass, moved: seq<Message>)
    requires left > 0 && Round(cfg, s, t, worker, asOf, until, throws, left - 1, claim, read, moved)
    requires GroupInv(start) && PendingDelivered(s) && Never(throws) && patience > Budget(start)
    requires OnTheWay(cfg, start, s, until, patience, left)
    ensures OnTheWay(cfg, start, t, until, patience, read.left)
  {
    RoundGoesOnward(cfg, s, t, worker, asOf, until, throws, left - 1, claim, read, moved);
    if left < ROUND_CHECKS {
      LateMeansDrained(cfg, start, s, until, patience, left);
    }
    hide Round, GroupInv, Progress;
    if Drained(cfg, start, s, until) {
      DrainedStays(cfg, start, s, t, until);
    } else {
      hide Drained;
      var rounds: nat :| Progress(cfg, start, s, until, rounds) && left + ROUND_CHECKS * rounds >= patience;
      RoundProgresses(cfg, start, s, t, worker, asOf, until, throws, left - 1, claim, read, moved, rounds);
      assert read.left + ROUND_CHECKS * (rounds + 1) >= patience;
    }
  }

  lemma OnwardChain(s: State, t: State, u: State)
    requires Onward(t, u)
    ensures Onward(s, t) ==> Onward(s, u)
  {
  }

  /** The invariant of the loop. */
  ghost predicate InLoop(
      cfg: Config, s: State, t: State, until: nat, throws: nat -> bool, patience: nat, left: nat)
  {
    Onward(s, t) && (Never(throws) && patience > Budget(s) ==> OnTheWay(cfg, s, t, until, patience, left))
  }

  lemma LoopStarts(cfg: Config, s: State, until: nat, throws: nat -> bool, patience: nat)
    ensures InLoop(cfg, s, s, until, throws, patience, patience)
  {
    NoProgressYet(cfg, s, until);
    assert patience + ROUND_CHECKS * 0 >= patience;
  }

  lemma RoundInLoop(
      cfg: Config, start: State, s: State, t: State, worker: nat, asOf: nat, until: nat, throws: nat -> bool,
      patience: nat, left: nat, claim: Pass, read: Pass, moved: seq<Message>)
    requires left > 0 && Round(cfg, s, t, worker, asOf, until, throws, left - 1, claim, read, moved)
    requires GroupInv(start) && PendingDelivered(s) && InLoop(cfg, start, s, until, throws, patience, left)
    ensures read.left < left && InLoop(cfg, start, t, until, throws, patience, read.left)
    ensures t.now == s.now && t.workers == s.workers && t.movers == s.movers
    ensures claim.threw || read.threw ==> !Never(throws)
  {
    RoundGoesOnward(cfg, s, t, worker, asOf, until, throws, left - 1, claim, read, moved);
    OnwardChain(start, s, t);
    hide Round, GroupInv, PendingDelivered, OnTheWay, Budget, Onward, Never;
    if Never(throws) {
      RoundNeverThrew(cfg, s, t, worker, asOf, until, throws, left - 1, claim, read, moved);
      if patience > Budget(start) {
        RoundOnTheWay(cfg, start, s, t, worker, asOf, until, throws, patience, left, claim, read, moved);
      }
    }
  }

  /** Wait of `listen` after a throw. */
  const RETRY_DELAY: nat := 1000

  /** The loop of `listen`: rounds until the signal has passed its checks, and after a throw a wait of a second. */
  ghost predicate Listened(
      cfg: Config, s: State, t: State, worker: nat, until: nat, throws: nat -> bool, patience: nat)
    decreases patience
  {
    if patience == 0 then t == s
    else
      var rest := patience - 1;
      exists u, claim, read, moved ::
        && Round(cfg, s, u, worker, s.now, until, throws, rest, claim, read, moved) && read.left <= rest
        && if !claim.threw && !read.threw then Listened(cfg, u, t, worker, until, throws, read.left)
           else if read.left == 0 then t == u
           else Listened(cfg, u.(now := u.now + RETRY_DELAY), t, worker, until, throws, read.left - 1)
  }

  /** The invariant of the loop holds at its end. */
  lemma {:induction false} ListenKeepsInLoop(
      cfg: Config, start: State, s: State, t: State, worker: nat, until: nat, throws: nat -> bool, patience: nat,
      left: nat)
    requires Listened(cfg, s, t, worker, until, throws, left) && InLoop(cfg, start, s, until, throws, patience, left)
    requires GroupInv(start) && PendingDelivered(s)
    ensures InLoop(cfg, start, t, until, throws, patience, 0) && t.workers == s.workers && t.movers == s.movers
    decreases left
  {
    hide Round, GroupInv, InLoop, PendingDelivered;
    if left > 0 {
      var rest := left - 1;
      var u, claim, read, moved :|
        && Round(cfg, s, u, worker, s.now, until, throws, rest, claim, read, moved) && read.left <= rest
        && if !claim.threw && !read.threw then Listened(cfg, u, t, worker, until, throws, read.left)
           else if read.left == 0 then t == u
           else Listened(cfg, u.(now := u.now + RETRY_DELAY), t, worker, until, throws, read.left - 1);
      RoundInLoop(cfg, start, s, u, worker, s.now, until, throws, patience, left, claim, read, moved);
      RoundKeepsDelivered(cfg, s, u, worker, s.now, until, throws, rest, claim, read, moved);
      if !claim.threw && !read.threw {
        ListenKeepsInLoop(cfg, start, u, t, worker, until, throws, patience, read.left);
      } else if read.left > 0 {
        var later := u.(now := u.now + RETRY_DELAY);
        WaitInLoop(cfg, start, u, until, throws, patience, read.left, u.now + RETRY_DELAY, read.left - 1);
        ListenKeepsInLoop(cfg, start, later, t, worker, until, throws, patience, read.left - 1);
      } else {
        WaitInLoop(cfg, start, u, until, throws, patience, read.left, u.now, 0);
      }
    }
  }

  /** The wait after a throw: the handler was not one that never throws. */
  lemma WaitInLoop(
      cfg: Config, s: State, t: State, until: nat, throws: nat -> bool, patience: nat, left: nat, later: nat,
      left': nat)
    requires InLoop(cfg, s, t, until, throws, patience, left) && !Never(throws)
    ensures InLoop(cfg, s, t.(now := later), until, throws, patience, left')
    ensures PendingDelivered(t.(now := later)) <==> PendingDelivered(t)
  {
  }

  lemma RoundKeepsDelivered(
      cfg: Config, s: State, t: State, worker: nat, asOf: nat, until: nat, throws: nat -> bool, patience: nat,
      claim: Pass, read: Pass, moved: seq<Message>)
    requires Round(cfg, s, t, worker, asOf, until, throws, patience, claim, read, moved) && PendingDelivered(s)
    ensures PendingDelivered(t)
  {
  }

  /**
   Recovery and progress: listening with a handler that never throws, and checks enough before the signal aborts,
   settles everything in the stream but what was pending and could not be claimed yet.
   */
  lemma ListenDrains(cfg: Config, s: State, t: State, worker: nat, until: nat, throws: nat -> bool, patience: nat)
    requires GroupInv(s) && Listened(cfg, s, t, worker, until, throws, patience)
    ensures Onward(s, t) && t.workers == s.workers && t.movers == s.movers
    ensures Never(throws) && patience > Budget(s) ==> Drained(cfg, s, t, until)
  {
    hide Listened, OnTheWay, Drained, Budget;
    LoopStarts(cfg, s, until, throws, patience);
    ListenKeepsInLoop(cfg, s, s, t, worker, until, throws, patience, patience);
    if Never(throws) && patience > Budget(s) {
      LateMeansDrained(cfg, s, t, until, patience, 0);
    }
  }

  lemma CrashedGroup(cfg: Config, s: State, crashed: nat, later: nat)
    requires GroupInv(s) && crashed in s.workers && s.now <= later
    ensures var idle := Crashed(s, crashed, later);
            && GroupInv(idle) && Budget(idle) == Budget(s) && idle.acked == s.acked && idle.trimmed == s.trimmed
            && idle.stream == s.stream
  {
    hide GroupInv, RemoveKey;
    GroupStep(cfg, s, Abandon(crashed));
    GroupStep(cfg, Apply(s, Abandon(crashed)), Tick(later));
  }

  /**
   A crash is recovered from: once the idle time has passed, any worker that listens with a handler that never throws,
   and with checks enough, has acknowledged whatever the crashed worker held, as far as the stream still has it and
   the scan reaches.
   */
  lemma CrashIsRecovered(
      cfg: Config, history: seq<Event>, states: seq<State>, crashed: nat, later: nat, t: State, worker: nat,
      until: nat, throws: nat -> bool, patience: nat)
    requires Run(cfg, history, states) && crashed in states[|history|].workers
    requires states[|history|].now + cfg.claimIdleTime <= later
    requires Listened(cfg, Crashed(states[|history|], crashed, later), t, worker, until, throws, patience)
    ensures Never(throws) && patience > Budget(states[|history|]) ==>
              forall i :: i in states[|history|].workers[crashed].entries && i < until ==> Settled(t, i)
  {
    var s := states[|history|];
    var idle := Crashed(s, crashed, later);
    HeldIsClaimable(cfg, history, states, crashed, later);
    GroupOf(cfg, history, states);
    CrashedGroup(cfg, s, crashed, later);
    hide Run, GroupInv, Listened, Budget, Claimable, Crashed;
    ListenDrains(cfg, idle, t, worker, until, throws, patience);
    if Never(throws) && patience > Budget(s) {
      forall i | i in s.workers[crashed].entries && i < until ensures Settled(t, i) {
        assert i < |idle.stream|;
      }
    }
  }

  lemma OneMoreRound(
      cfg: Config, s: State, u: State, worker: nat, until: nat, throws: nat -> bool, patience: nat, claim: Pass,
      read: Pass, moved: seq<Message>)
    requires patience > 0 && Round(cfg, s, u, worker, s.now, until, throws, patience - 1, claim, read, moved)
    requires read.left < patience
    ensures !claim.threw && !read.threw ==>
              forall t :: Listened(cfg, u, t, worker, until, throws, read.left) ==>
                Listened(cfg, s, t, worker, until, throws, patience)
    ensures (claim.threw || read.threw) && read.left == 0 ==> Listened(cfg, s, u, worker, until, throws, patience)
    ensures (claim.threw || read.threw) && read.left > 0 ==>
              forall t :: Listened(cfg, u.(now := u.now + RETRY_DELAY), t, worker, until, throws, read.left - 1) ==>
                Listened(cfg, s, t, worker, until, throws, patience)
  {
    hide Round;
  }

  lemma NoMoreRounds(cfg: Config, s: State, worker: nat, until: nat, throws: nat -> bool)
    ensures Listened(cfg, s, s, worker, until, throws, 0)
  {
  }

  lemma GroupOf(cfg: Config, history: seq<Event>, states: seq<State>)
    requires Run(cfg, history, states)
    ensures GroupInv(states[|history|])
  {
    RunKeepsInv(cfg, history, states, |history|);
  }

  lemma ClaimFrees(cfg: Config, s: State, worker: nat, until: nat, throws: nat -> bool, patience: nat, p: Pass)
    requires ClaimPass(cfg, s, until, throws, patience, p)
    ensures p.done <= |p.taken|
    ensures var t := AfterPass(s, worker, p); t.workers == s.workers && t.movers == s.movers && t.now == s.now
  {
  }

  lemma ReadFrees(s: State, worker: nat, throws: nat -> bool, patience: nat, p: Pass)
    requires ReadPass(s, throws, patience, p)
    ensures p.done <= |p.taken|
    ensures var t := AfterRead(s, worker, p); t.workers == s.workers && t.movers == s.movers && t.now == s.now
  {
  }

  /** One Redis server with every worker and mover that uses it. */
  class Deployment {
    const cfg: Config
    var now: nat
    var delayed: map<Message, int>
    var stream: seq<Entry>
    var trimmed: nat
    var delivered: nat
    var pending: map<nat, Claim>
    var acked: set<nat>
    var workers: map<nat, Batch>
    var movers: map<nat, seq<Message>>
    ghost var enqueued: set<Message>
    ghost var due: map<Message, int>
    ghost var handled: set<nat>
    ghost var history: seq<Event>
    ghost var states: seq<State>

    ghost function View(): State
      reads this
    {
      State(now, delayed, stream, trimmed, delivered, pending, acked, workers, movers, enqueued, due, handled)
    }

    /** This is the state the recorded run has come to. */
    ghost predicate At(s: State)
      reads this`history, this`states
    {
      Run(cfg, history, states) && s == states[|history|]
    }

    /** The structures are as a run of the transition system leaves them. */
    ghost predicate Valid()
      reads this
    {
      At(View())
    }

    constructor (cfg: Config)
      ensures this.cfg == cfg && Valid() && history == []
    {
      this.cfg := cfg;
      now, delayed, stream, trimmed, delivered := 0, map[], [], 0, 0;
      pending, acked, workers, movers := map[], {}, map[], map[];
      enqueued, due, handled, history, states := {}, map[], {}, [], [Init];
    }

    /** What was just done was one enabled step. */
    ghost method Record(before: State, e: Event)
      requires At(before) && Enabled(cfg, before, e) && View() == Apply(before, e)
      modifies this`history, this`states
      ensures Valid() && history == old(history) + [e]
    {
      history, states := Extend(cfg, history, states, e);
    }

    /** Where an approximate MAXLEN trims to: Redis' choice among the legal ones. */
    method TrimPoint(length: nat) returns (cut: nat)
      requires trimmed <= length
      ensures LegalCut(cfg, View(), length, cut)
    {
      cut :| trimmed <= cut <= length && (cut == trimmed || cut + cfg.maxStreamLength <= length);
    }

    method Wait(later: nat)
      requires Valid() && now <= later
      modifies this
      ensures Valid() && history == old(history) + [Tick(later)] && View() == old(View()).(now := later)
    {
      ghost var before := View();
      now := later;
      Record(before, Tick(later));
    }

    /** ZADD with a common score. */
    method ZAdd(messages: seq<Message>, readyAt: int)
      requires Valid() && Fresh(View(), messages)
      modifies this
      ensures Valid() && history == old(history) + [EnqueueLater(messages, readyAt)]
      ensures View() == Apply(old(View()), EnqueueLater(messages, readyAt))
      ensures delayed == old(delayed) + Scores(messages, readyAt) && stream == old(stream)
    {
      hide Apply, Enabled, Run, Fresh;
      ghost var before := View();
      LaterIs(before, messages, readyAt);
      FreshIsEnabled(cfg, before, messages, readyAt, 0);
      delayed := delayed + Scores(messages, readyAt);
      due := due + Scores(messages, readyAt);
      enqueued := enqueued + Elements(messages);
      Record(before, EnqueueLater(messages, readyAt));
    }

    method AddEntries(messages: seq<Message>)
      modifies this`stream
      ensures stream == old(stream) + Entries(messages, now)
    {
      for i := 0 to |messages|
        invariant stream == old(stream) + Entries(messages[..i], now)
      {
        assert Entries(messages[..i + 1], now) == Entries(messages[..i], now) + [Entry(messages[i], now)];
        stream := stream + [Entry(messages[i], now)];
      }
      assert messages[..|messages|] == messages;
    }

    /** The XADDs of one transaction, trimming included. */
    method XAdd(messages: seq<Message>)
      requires Valid() && Fresh(View(), messages)
      modifies this
      ensures Valid() && history == old(history) + [EnqueueNow(messages, trimmed)]
      ensures View() == Apply(old(View()), EnqueueNow(messages, trimmed))
      ensures stream == old(stream) + Entries(messages, now) && now == old(now) && delayed == old(delayed)
    {
      hide Apply, Enabled, Run, Fresh, LegalCut;
      ghost var before := View();
      TrimmedWithin(cfg, history, states);
      var cut := TrimPoint(|stream| + |messages|);
      NowIs(before, messages, cut);
      FreshIsEnabled(cfg, before, messages, 0, cut);
      AddEntries(messages);
      trimmed, enqueued := cut, enqueued + Elements(messages);
      Record(before, EnqueueNow(messages, cut));
    }

    /** `enqueue`: a delayed message by its ready time, reckoned from an earlier clock reading, or a new entry. */
    method Enqueue(message: Message, delay: Option<int>, clock: nat)
      requires Valid() && message !in enqueued && clock <= now
      modifies this
      ensures Valid() && old(history) < history
      ensures if delay.Some? then delayed == old(delayed)[message := clock + delay.value] && stream == old(stream)
              else stream == old(stream) + [Entry(message, now)] && delayed == old(delayed)
    {
      hide Apply, Run;
      if delay.Some? {
        OneScore(message, clock + delay.value, delayed);
        ZAdd([message], clock + delay.value);
      } else {
        assert Entries([message], now) == [Entry(message, now)];
        XAdd([message]);
      }
    }

    /** `enqueueMany`: nothing, or one ZADD with a common score, or one transaction of XADDs. */
    method EnqueueMany(messages: seq<Message>, delay: Option<int>, clock: nat)
      requires Valid() && Fresh(View(), messages) && clock <= now
      modifies this
      ensures Valid() && old(history) <= history && |history| == |old(history)| + (if messages == [] then 0 else 1)
      ensures if delay.Some?
              then delayed == old(delayed) + Scores(messages, clock + delay.value) && stream == old(stream)
              else stream == old(stream) + Entries(messages, now) && delayed == old(delayed)
    {
      hide Apply, Run, Fresh;
      if |messages| == 0 {
        assert Entries([], now) == [];
        return;
      }
      if delay.Some? {
        ZAdd(messages, clock + delay.value);
      } else {
        XAdd(messages);
      }
    }

    /** The next entries after the last one delivered, or after the trimmed ones, at most ten. */
    method NextEntries() returns (entries: seq<nat>, end: nat)
      ensures entries == Range(ReadStart(View()), ReadEnd(View())) && end == ReadEnd(View())
    {
      var start := if trimmed < delivered then delivered else trimmed;
      end := if start + READ_COUNT <= |stream| then start + READ_COUNT else |stream|;
      if end < start {
        end := start;
      }
      entries := Range(start, end);
    }

    /** XREADGROUP: up to ten entries never delivered to the group, now pending for this worker. */
    method ReadGroup(worker: nat) returns (entries: seq<nat>)
      requires Valid() && worker !in workers
      modifies this
      ensures Valid() && history == old(history) + [ReadNew(worker)]
      ensures View() == Apply(old(View()), ReadNew(worker))
      ensures entries == Range(ReadStart(old(View())), ReadEnd(old(View())))
    {
      ghost var before := View();
      ReadIs(before, worker);
      assert Enabled(cfg, before, ReadNew(worker));
      hide Apply, Enabled, Run, ReadStart, ReadEnd, Stamp;
      var end;
      entries, end := NextEntries();
      if |entries| > 0 {
        pending := Stamp(pending, Elements(entries), Claim(worker, now));
        workers := workers[worker := Batch(entries, false)];
        delivered := end;
      }
      Record(before, ReadNew(worker));
    }

    /** The scan of XAUTOCLAIM over the pending list, from the start and no further than `until`. */
    method ScanIdle(until: nat) returns (taken: seq<nat>, purged: set<nat>)
      ensures Claims(cfg, View(), until, taken, purged)
    {
      taken, purged := [], {};
      var i := 0;
      while i < until && |taken| + |purged| < CLAIM_COUNT
        invariant i <= until && |taken| + |purged| <= CLAIM_COUNT
        invariant NoDuplicates(taken) && forall j :: j in taken ==> j < i && Claimable(cfg, View(), j)
        invariant forall j :: j in purged ==> j < i && j in pending && j < trimmed
        invariant forall j: nat :: j < i && Claimable(cfg, View(), j) ==> j in taken
      {
        if i in pending {
          if i < trimmed {
            purged := purged + {i};
          } else if pending[i].at + cfg.claimIdleTime <= now {
            assert forall k :: 0 <= k < |taken| ==> taken[k] in taken;
            taken := taken + [i];
          }
        }
        i := i + 1;
      }
    }

    /**
     XAUTOCLAIM for ten entries: this worker takes over entries idle long enough, and entries trimmed away are
     forgotten. Unless ten were found, every idle entry scanned is taken.
     */
    method AutoClaim(worker: nat, until: nat) returns (taken: seq<nat>, purged: set<nat>)
      requires Valid() && worker !in workers
      modifies this
      ensures Valid() && history == old(history) + [ClaimIdle(worker, taken, purged)]
      ensures Claims(cfg, old(View()), until, taken, purged)
      ensures View() == Apply(old(View()), ClaimIdle(worker, taken, purged))
    {
      hide Apply, Enabled, Run, Claimable, NoDuplicates;
      ghost var before := View();
      taken, purged := ScanIdle(until);
      ClaimIs(cfg, before, worker, taken, purged);
      pending := pending - purged;
      pending := Stamp(pending, Elements(taken), Claim(worker, now));
      if |taken| > 0 {
        workers := workers[worker := Batch(taken, false)];
      }
      Record(before, ClaimIdle(worker, taken, purged));
    }

    /** The handler returned for the worker's current entry, or was skipped for lack of data. */
    method Handle(worker: nat)
      requires Valid() && worker in workers && !workers[worker].returned
      modifies this
      ensures Valid() && history == old(history) + [HandlerReturns(worker)]
      ensures View() == Apply(old(View()), HandlerReturns(worker))
    {
      ghost var before := View();
      CurrentEntry(cfg, history, states, worker);
      var batch := workers[worker];
      if stream[batch.entries[0]].message.hasData {
        handled := handled + {batch.entries[0]};
      }
      workers := workers[worker := batch.(returned := true)];
      Record(before, HandlerReturns(worker));
    }

    /** XACK, then on to the next entry of the batch. */
    method Ack(worker: nat)
      requires Valid() && worker in workers && workers[worker].returned
      modifies this
      ensures Valid() && history == old(history) + [Acknowledge(worker)]
      ensures View() == Apply(old(View()), Acknowledge(worker))
    {
      ghost var before := View();
      CurrentEntry(cfg, history, states, worker);
      AckIs(before, worker);
      hide Apply, Enabled, Run;
      var entries := workers[worker].entries;
      acked, pending := acked + {entries[0]}, RemoveKey(pending, entries[0]);
      if |entries| == 1 {
        workers := RemoveKey(workers, worker);
      } else {
        workers := workers[worker := Batch(entries[1..], false)];
      }
      Record(before, Acknowledge(worker));
    }

    /** The handler threw, the signal aborted or the process died: the rest of the batch is dropped. */
    method Drop(worker: nat)
      requires Valid() && worker in workers
      modifies this
      ensures Valid() && history == old(history) + [Abandon(worker)]
      ensures View() == Freed(old(View()), worker)
    {
      ghost var before := View();
      workers := RemoveKey(workers, worker);
      Record(before, Abandon(worker));
    }

    /**
     `processMessage`: handled and acknowledged, or, when the handler throws, left pending with the rest of the batch.
     */
    method ProcessMessage(worker: nat, throws: nat -> bool) returns (ok: bool)
      requires Valid() && Current(View(), worker)
      modifies this
      ensures Valid() && old(history) < history
      ensures ok <==> !Rejects(old(View()), throws, old(workers[worker].entries[0]))
      ensures View() == if ok then AfterMessage(old(View()), worker) else Freed(old(View()), worker)
    {
      ghost var before := View();
      CurrentEntry(cfg, history, states, worker);
      HandlingMarks(before, worker);
      hide Apply, Run;
      var i := workers[worker].entries[0];
      if stream[i].message.hasData && throws(i) {
        Drop(worker);
        return false;
      }
      Handle(worker);
      Ack(worker);
      ok := true;
    }

    /** The loop over one batch; `patience` checks of the signal pass before it aborts. */
    method ProcessBatch(worker: nat, throws: nat -> bool, patience: nat)
      returns (done: nat, threw: bool, left: nat)
      requires Valid() && Current(View(), worker)
      modifies this
      ensures Valid() && old(history) <= history
      ensures Follows(old(View()), throws, old(workers[worker].entries), patience, done, threw, left)
      ensures View() == Finished(old(View()), worker, old(workers[worker].entries), done)
    {
      ghost var before := View();
      var entries := workers[worker].entries;
      done, threw, left := 0, false, patience;
      NothingProcessed(before, worker);
      hide Apply, Run, AfterMessage, Underway, Finished, Freed, Rejects;
      while worker in workers
        invariant Valid() && old(history) <= history && !threw && left + done == patience
        invariant Underway(before, View(), worker, entries, done)
        invariant done <= |entries| && forall k :: 0 <= k < done ==> !Rejects(before, throws, entries[k])
        decreases |entries| - done
      {
        ghost var here := View();
        UnderwayIs(before, here, worker, entries, done);
        if left == 0 {
          Drop(worker);
          return;
        }
        left := left - 1;
        MessageMoves(before, here, worker, entries, done);
        var ok := ProcessMessage(worker, throws);
        if !ok {
          threw := true;
          return;
        }
        done := done + 1;
      }
      UnderwayIs(before, View(), worker, entries, done);
    }

    /** `processClaimedMessages`. */
    method ProcessClaimedMessages(worker: nat, until: nat, throws: nat -> bool, patience: nat) returns (p: Pass)
      requires Valid() && worker !in workers
      modifies this
      ensures Valid() && old(history) <= history
      ensures ClaimPass(cfg, old(View()), until, throws, patience, p)
      ensures View() == AfterPass(old(View()), worker, p)
    {
      ghost var before := View();
      NoPassIs(before, worker, patience);
      hide Apply, Run, Claims, Finished, AfterPass;
      if patience == 0 {
        return NoPass(0);
      }
      var taken, purged := AutoClaim(worker, until);
      p := Pass(taken, purged, 0, false, patience - 1);
      ghost var here := View();
      ClaimHolds(before, worker, taken, purged);
      if |taken| > 0 {
        var done, threw, left := ProcessBatch(worker, throws, patience - 1);
        p := Pass(taken, purged, done, threw, left);
        BatchDone(before, here, worker, p, throws, patience - 1);
      } else {
        NothingTaken(before, here, worker, p);
      }
    }

    /** `processNewMessages`. */
    method ProcessNewMessages(worker: nat, throws: nat -> bool, patience: nat) returns (p: Pass)
      requires Valid() && worker !in workers
      modifies this
      ensures Valid() && old(history) <= history
      ensures ReadPass(old(View()), throws, patience, p)
      ensures View() == AfterRead(old(View()), worker, p)
    {
      ghost var before := View();
      NoPassIs(before, worker, patience);
      hide Apply, Run, Finished, AfterPass, ReadStart, ReadEnd;
      if patience == 0 {
        return NoPass(0);
      }
      var taken := ReadGroup(worker);
      p := Pass(taken, {}, 0, false, patience - 1);
      ghost var here := View();
      ReadHolds(before, worker);
      if |taken| > 0 {
        var done, threw, left := ProcessBatch(worker, throws, patience - 1);
        p := Pass(taken, {}, done, threw, left);
        BatchDone(before, here, worker, p, throws, patience - 1);
      } else {
        NothingTaken(before, here, worker, p);
      }
    }

    /** ZRANGEBYSCORE: the lowest-scored of the ready messages, one at a time. */
    method RangeByScore(asOf: nat) returns (items: seq<Message>)
      requires asOf <= now
      ensures ReadyBatch(View(), asOf, items)
    {
      var rest := set m | m in delayed && 0 <= delayed[m] <= asOf;
      items := [];
      while rest != {} && |items| < MOVE_COUNT
        invariant |items| <= MOVE_COUNT && NoDuplicates(items)
        invariant forall m :: m in rest <==> Ready(View(), asOf, m) && m !in items
        invariant forall m :: m in items ==> Ready(View(), asOf, m)
        invariant forall m, l :: m in items && l in rest ==> delayed[m] <= delayed[l]
        invariant forall i, j :: 0 <= i < j < |items| ==> Score(View(), items[i]) <= Score(View(), items[j])
        decreases |rest|
      {
        ghost var least := LeastExists(rest, delayed);
        var m :| m in rest && forall l :: l in rest ==> delayed[m] <= delayed[l];
        assert forall k :: 0 <= k < |items| ==> items[k] in items;
        items := items + [m];
        rest := rest - {m};
      }
    }

    /** First half of `moveDelayedToStream`: read what was ready at an earlier clock reading. */
    method ReadDelayed(mover: nat, asOf: nat) returns (items: seq<Message>)
      requires Valid() && mover !in movers && asOf <= now
      modifies this
      ensures ReadyBatch(old(View()), asOf, items)
      ensures Valid() && history == old(history) + [MoverReads(mover, asOf, items)]
      ensures View() == old(View()).(movers := if items == [] then old(movers) else old(movers)[mover := items])
    {
      ghost var before := View();
      items := RangeByScore(asOf);
      if |items| > 0 {
        movers := movers[mover := items];
      }
      Record(before, MoverReads(mover, asOf, items));
    }

    /** Second half: one transaction with an XADD and a ZREM per item, present or not. */
    method CommitDelayed(mover: nat)
      requires Valid() && mover in movers
      modifies this
      ensures Valid() && history == old(history) + [MoverCommits(mover, trimmed)]
      ensures View() == Apply(old(View()), MoverCommits(mover, trimmed))
      ensures LegalCut(cfg, old(View()), |old(stream)| + |old(movers[mover])|, trimmed)
    {
      TrimmedWithin(cfg, history, states);
      hide Apply, Enabled, Run, Entries, LegalCut, RemoveKey;
      ghost var before := View();
      var items := movers[mover];
      var cut := TrimPoint(|stream| + |items|);
      CommitIs(cfg, before, mover, cut);
      MoveAll(items);
      trimmed, movers := cut, RemoveKey(movers, mover);
      assert View() == Apply(before, MoverCommits(mover, cut));
      Record(before, MoverCommits(mover, cut));
    }

    /** The XADD and ZREM of every item, queued in one transaction. */
    method MoveAll(items: seq<Message>)
      modifies this`stream, this`delayed
      ensures stream == old(stream) + Entries(items, now)
      ensures delayed == old(delayed) - Elements(items)
    {
      var i := 0;
      while i < |items|
        invariant i <= |items|
        invariant stream == old(stream) + Entries(items[..i], now)
        invariant delayed == old(delayed) - Elements(items[..i])
      {
        assert items[..i + 1] == items[..i] + [items[i]];
        assert Entries(items[..i + 1], now) == Entries(items[..i], now) + [Entry(items[i], now)];
        assert Elements(items[..i + 1]) == Elements(items[..i]) + {items[i]};
        stream := stream + [Entry(items[i], now)];
        delayed := RemoveKey(delayed, items[i]);
        i := i + 1;
      }
      assert items[..i] == items;
    }

    /** `moveDelayedToStream`, undisturbed: the lowest-scored ready messages move, each once. */
    method MoveDelayedToStream(mover: nat, asOf: nat) returns (items: seq<Message>)
      requires Valid() && mover !in movers && asOf <= now
      modifies this
      ensures Valid() && old(history) < history && Moves(cfg, old(View()), View(), asOf, items)
    {
      items := ReadDelayed(mover, asOf);
      hide Run, ReadyBatch;
      hide Apply;
      if |items| > 0 {
        ghost var held := View();
        assert movers[mover] == items && RemoveKey(movers, mover) == old(movers);
        CommitDelayed(mover);
        CommitIs(cfg, held, mover, trimmed);
      } else {
        assert Entries(items, now) == [] && Elements(items) == {};
      }
    }

    /** One round of `listen`. */
    method ListenOnce(worker: nat, mover: nat, asOf: nat, until: nat, throws: nat -> bool, patience: nat)
      returns (claim: Pass, read: Pass, moved: seq<Message>)
      requires Valid() && worker !in workers && mover !in movers && asOf <= now
      modifies this
      ensures Valid() && old(history) <= history
      ensures Round(cfg, old(View()), View(), worker, asOf, until, throws, patience, claim, read, moved)
    {
      moved := [];
      hide Run, ClaimPass, ReadPass, AfterPass, AfterRead, Moves;
      ghost var before := View();
      claim := ProcessClaimedMessages(worker, until, throws, patience);
      ghost var here := View();
      ClaimFrees(cfg, before, worker, until, throws, patience, claim);
      read := NoPass(claim.left);
      if claim.threw {
        return;
      }
      read := ProcessNewMessages(worker, throws, claim.left);
      ReadFrees(here, worker, throws, claim.left, read);
      if read.threw {
        return;
      }
      moved := MoveDelayedToStream(mover, asOf);
    }

    /** The loop of `listen`, until the signal has passed `patience` checks. */
    method Listen(worker: nat, mover: nat, until: nat, throws: nat -> bool, patience: nat)
      requires Valid() && worker !in workers && mover !in movers
      modifies this
      ensures Valid() && old(history) <= history
      ensures Listened(cfg, old(View()), View(), worker, until, throws, patience)
    {
      ghost var before := View();
      var left: nat := patience;
      hide Run, Round, Apply, Listened;
      while left > 0
        invariant Valid() && old(history) <= history && worker !in workers && mover !in movers
        invariant forall t :: Listened(cfg, View(), t, worker, until, throws, left) ==>
                    Listened(cfg, before, t, worker, until, throws, patience)
        decreases left
      {
        ghost var here := View();
        var claim, read, moved := ListenOnce(worker, mover, now, until, throws, left - 1);
        RoundGoesOnward(cfg, here, View(), worker, here.now, until, throws, left - 1, claim, read, moved);
        OneMoreRound(cfg, here, View(), worker, until, throws, left, claim, read, moved);
        left := read.left;
        if claim.threw || read.threw {
          if left == 0 {
            return;
          }
          left := left - 1;
          Wait(now + RETRY_DELAY);
        }
      }
      NoMoreRounds(cfg, View(), worker, until, throws);
    }

    /** A worker crashes, the idle time passes, and any free worker, itself included, listens. */
    method CrashAndRecover(
        crashed: nat, worker: nat, mover: nat, later: nat, until: nat, throws: nat -> bool, patience: nat)
      requires Valid() && crashed in workers && (worker == crashed || worker !in workers) && mover !in movers
      requires now + cfg.claimIdleTime <= later
      modifies this
      ensures Valid() && old(history) <= history
      ensures Listened(cfg, Crashed(old(View()), crashed, later), View(), worker, until, throws, patience)
      ensures Never(throws) && patience > Budget(old(View())) ==>
                forall i :: i in old(workers[crashed].entries) && i < until ==> i in acked || i < trimmed
    {
      ghost var before, history0, states0 := View(), history, states;
      hide Run, Listened, Budget, Never;
      Drop(crashed);
      Wait(later);
      assert View() == Crashed(before, crashed, later);
      Listen(worker, mover, until, throws, patience);
      CrashIsRecovered(cfg, history0, states0, crashed, later, View(), worker, until, throws, patience);
    }
  }

  lemma HandlingMarks(s: State, worker: nat)
    requires worker in s.workers && s.workers[worker].entries != []
    ensures var t := Apply(s, HandlerReturns(worker));
            worker in t.workers && t.workers[worker].returned
  {
  }

  // ----- the deployment is safe -----

  /**
   Whatever sequence of these operations, by however many workers and movers, brought a deployment where it is:
   every acknowledged entry was handled or had no data, every message waits or has a stream entry, and none is lost
   while the unacknowledged span stayed within the stream bound.
   */
  lemma DeploymentIsSafe(d: Deployment)
    requires d.Valid()
    ensures forall i :: i in d.acked ==> Served(d.View(), i)
    ensures forall m :: m in d.enqueued ==> m in d.delayed || InStream(d.View(), m)
    ensures (forall k :: 0 <= k < |d.states| ==> SpanWithin(d.cfg, d.states[k])) ==>
              forall m :: m in d.enqueued ==> Located(d.View(), m)
  {
    RunKeepsInv(d.cfg, d.history, d.states, |d.history|);
    if forall k :: 0 <= k < |d.states| ==> SpanWithin(d.cfg, d.states[k]) {
      hide Apply, Enabled, SpanWithin, Located, Inv;
      NothingLost(d.cfg, d.history, d.states, |d.history|);
    }
  }
}

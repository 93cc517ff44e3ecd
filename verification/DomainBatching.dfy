/**
 Regrouping delivery tasks by domain and re-filtering them per task
 (fedify-sidecar/archive/legacy/domain-batched-worker.ts; routing only).
 */
module DomainBatching {
  import opened Prelude

  datatype Recipient = Recipient(id: string, inbox: Option<string>, sharedInbox: Option<string>)

  datatype Task = Task(actorId: string, activity: string, recipients: seq<Recipient>)

  datatype DomainBatch = DomainBatch(sharedInbox: Option<string>, recipients: seq<Recipient>)

  /** What one domain accumulates: positions of the tasks that reach it, and their recipients there. */
  datatype DomainWork = DomainWork(tasks: seq<nat>, batch: DomainBatch)

  /** One `deliverToDomain` call. */
  datatype Call = Call(domain: string, task: nat, sharedInbox: Option<string>, recipients: seq<Recipient>)

  /** `extractDomain`: the hostname of a URL, or the empty string. */
  type Extract = string -> string

  function DomainOf(extract: Extract, r: Recipient): string {
    extract(if r.inbox.Some? then r.inbox.value else r.id)
  }

  function Truthy(s: Option<string>): Option<string> {
    if s == Some("") then None else s
  }

  /** The host a recipient is delivered at: that of its inbox, or of its id if it has none. */
  ghost function Hostname(extract: Extract, r: Recipient): string {
    match r.inbox
    case Some(inbox) => extract(inbox)
    case None => extract(r.id)
  }

  // ----- what the maps should hold -----

  /** The recipients of one domain, in order. */
  function ForDomain(extract: Extract, rs: seq<Recipient>, domain: string): seq<Recipient> {
    if rs == [] then []
    else
      var front, last := rs[..|rs| - 1], rs[|rs| - 1];
      ForDomain(extract, front, domain) + if DomainOf(extract, last) == domain then [last] else []
  }

  /** The first non-empty shared inbox. */
  function FirstShared(rs: seq<Recipient>): Option<string> {
    if rs == [] then None
    else
      var earlier := FirstShared(rs[..|rs| - 1]);
      if earlier.Some? then earlier else Truthy(rs[|rs| - 1].sharedInbox)
  }

  /** The parsable domains in order of first appearance, as a JavaScript map would list them. */
  function DomainsOf(extract: Extract, rs: seq<Recipient>): seq<string> {
    if rs == [] then []
    else
      var front, domain := DomainsOf(extract, rs[..|rs| - 1]), DomainOf(extract, rs[|rs| - 1]);
      if domain == "" then front else Add(front, domain)
  }

  function AllDomains(extract: Extract, tasks: seq<Task>): seq<string> {
    if tasks == [] then []
    else AddAll(AllDomains(extract, tasks[..|tasks| - 1]), DomainsOf(extract, tasks[|tasks| - 1].recipients))
  }

  function TasksReaching(extract: Extract, tasks: seq<Task>, domain: string): seq<nat> {
    if tasks == [] then []
    else
      var n := |tasks| - 1;
      TasksReaching(extract, tasks[..n], domain)
      + if ForDomain(extract, tasks[n].recipients, domain) != [] then [n] else []
  }

  /** The concatenation over the tasks of each task's filter. */
  function Gathered(extract: Extract, tasks: seq<Task>, domain: string): seq<Recipient> {
    if tasks == [] then []
    else
      var n := |tasks| - 1;
      Gathered(extract, tasks[..n], domain) + ForDomain(extract, tasks[n].recipients, domain)
  }

  function Work(extract: Extract, tasks: seq<Task>, domain: string): DomainWork {
    var gathered := Gathered(extract, tasks, domain);
    DomainWork(TasksReaching(extract, tasks, domain), DomainBatch(FirstShared(gathered), gathered))
  }

  /** Deliveries of one domain, one task after another until a delivery fails. */
  function DomainCalls(
      extract: Extract, tasks: seq<Task>, domain: string, at: seq<nat>, fails: (string, nat) -> bool): seq<Call>
    requires forall i: nat :: i in at ==> i < |tasks|
  {
    if at == [] then []
    else
      assert at[0] in at && forall i: nat :: i in at[1..] ==> i in at;
      [CallFor(extract, tasks, domain, at[0])]
      + if fails(domain, at[0]) then [] else DomainCalls(extract, tasks, domain, at[1..], fails)
  }

  function CallFor(extract: Extract, tasks: seq<Task>, domain: string, i: nat): Call
    requires i < |tasks|
  {
    Call(domain, i, FirstShared(Gathered(extract, tasks, domain)), ForDomain(extract, tasks[i].recipients, domain))
  }

  function AllCalls(extract: Extract, tasks: seq<Task>, domains: seq<string>, fails: (string, nat) -> bool): seq<Call> {
    if domains == [] then []
    else
      var n := |domains| - 1;
      ReachingIsBounded(extract, tasks, domains[n]);
      AllCalls(extract, tasks, domains[..n], fails)
      + DomainCalls(extract, tasks, domains[n], TasksReaching(extract, tasks, domains[n]), fails)
  }

  lemma {:induction false} ReachingIsBounded(extract: Extract, tasks: seq<Task>, domain: string)
    ensures forall i: nat :: i in TasksReaching(extract, tasks, domain) <==>
              i < |tasks| && ForDomain(extract, tasks[i].recipients, domain) != []
  {
    if tasks != [] {
      var front := tasks[..|tasks| - 1];
      ReachingIsBounded(extract, front, domain);
      assert forall i: nat :: i < |front| ==> front[i] == tasks[i];
    }
  }

  ghost predicate Ascending(at: seq<nat>) {
    forall a, b :: 0 <= a < b < |at| ==> at[a] < at[b]
  }

  lemma {:induction false} ReachingAscends(extract: Extract, tasks: seq<Task>, domain: string)
    ensures Ascending(TasksReaching(extract, tasks, domain))
  {
    if tasks != [] {
      var front := tasks[..|tasks| - 1];
      ReachingAscends(extract, front, domain);
      ReachingIsBounded(extract, front, domain);
      var at := TasksReaching(extract, front, domain);
      forall a | 0 <= a < |at| ensures at[a] < |front| {
        assert at[a] in at;
      }
    }
  }

  // ----- the source's loops -----

  function BatchOf(extract: Extract, rs: seq<Recipient>, domain: string): DomainBatch {
    var mine := ForDomain(extract, rs, domain);
    DomainBatch(FirstShared(mine), mine)
  }

  function Extended(batch: DomainBatch, r: Recipient): DomainBatch {
    DomainBatch(if batch.sharedInbox.Some? then batch.sharedInbox else Truthy(r.sharedInbox), batch.recipients + [r])
  }

  lemma BatchGrows(extract: Extract, rs: seq<Recipient>, domain: string)
    requires rs != []
    ensures BatchOf(extract, rs, domain)
         == if DomainOf(extract, rs[|rs| - 1]) == domain
            then Extended(BatchOf(extract, rs[..|rs| - 1], domain), rs[|rs| - 1])
            else BatchOf(extract, rs[..|rs| - 1], domain)
  {
    var before, last := ForDomain(extract, rs[..|rs| - 1], domain), rs[|rs| - 1];
    assert (before + [last])[..|before|] == before;
    assert before + [] == before;
  }

  function Placed(batches: map<string, DomainBatch>, domain: string, r: Recipient): map<string, DomainBatch> {
    batches[domain := Extended(if domain in batches then batches[domain] else DomainBatch(None, []), r)]
  }

  /** The loop body: find or create the domain's batch, and push. */
  method PlaceRecipient(
      domainsBefore: seq<string>, batchesBefore: map<string, DomainBatch>, domain: string, recipient: Recipient)
    returns (domains: seq<string>, batches: map<string, DomainBatch>)
    requires forall d :: d in batchesBefore <==> d in domainsBefore
    ensures domains == Add(domainsBefore, domain)
    ensures batches == Placed(batchesBefore, domain, recipient)
  {
    domains, batches := domainsBefore, batchesBefore;
    if domain !in batches {
      batches := batches[domain := DomainBatch(None, [])];
      domains := domains + [domain];
    }
    batches := batches[domain := Extended(batches[domain], recipient)];
  }

  ghost predicate Batched(
      extract: Extract, rs: seq<Recipient>, domains: seq<string>, batches: map<string, DomainBatch>)
  {
    && domains == DomainsOf(extract, rs)
    && (forall d :: d in batches <==> d in domains)
    && (forall d :: d in batches ==> batches[d] == BatchOf(extract, rs, d))
  }

  lemma BatchedGrows(
      extract: Extract, front: seq<Recipient>, r: Recipient, domains: seq<string>, batches: map<string, DomainBatch>)
    requires Batched(extract, front, domains, batches)
    ensures var domain := DomainOf(extract, r);
            if domain == "" then Batched(extract, front + [r], domains, batches)
            else Batched(extract, front + [r], Add(domains, domain), Placed(batches, domain, r))
  {
    var rs := front + [r];
    assert rs[..|rs| - 1] == front;
    EmptyIsNoDomain(extract, front);
    forall d ensures BatchOf(extract, rs, d)
                  == if DomainOf(extract, r) == d then Extended(BatchOf(extract, front, d), r)
                     else BatchOf(extract, front, d) {
      BatchGrows(extract, rs, d);
    }
  }

  lemma NothingBatched(extract: Extract)
    ensures Batched(extract, [], [], map[])
  {
  }

  /** `groupByDomain`: the map's keys in order of insertion, and its batches. */
  method GroupByDomain(extract: Extract, recipients: seq<Recipient>)
    returns (domains: seq<string>, batches: map<string, DomainBatch>)
    ensures Batched(extract, recipients, domains, batches)
  {
    domains, batches := [], map[];
    NothingBatched(extract);
    hide BatchOf, DomainsOf, DomainOf, ForDomain, Add, Placed, Extended;
    var i := 0;
    while i < |recipients|
      invariant i <= |recipients|
      invariant Batched(extract, recipients[..i], domains, batches)
    {
      var recipient := recipients[i];
      BatchedGrows(extract, recipients[..i], recipient, domains, batches);
      assert recipients[..i] + [recipient] == recipients[..i + 1];
      var domain := DomainOf(extract, recipient);
      if domain != "" {
        domains, batches := PlaceRecipient(domains, batches, domain, recipient);
      }
      i := i + 1;
    }
    assert recipients[..i] == recipients;
  }

  lemma {:induction false} EmptyIsNoDomain(extract: Extract, rs: seq<Recipient>)
    ensures "" !in DomainsOf(extract, rs)
    ensures NoDuplicates(DomainsOf(extract, rs))
    ensures forall d :: d in DomainsOf(extract, rs) <==> d != "" && ForDomain(extract, rs, d) != []
  {
    if rs != [] {
      EmptyIsNoDomain(extract, rs[..|rs| - 1]);
    }
  }

  /** Adding one task's batch of a domain to what the domain has so far. */
  function Merged(prior: Option<DomainWork>, n: nat, batch: DomainBatch): DomainWork {
    match prior
    case None => DomainWork([n], batch)
    case Some(w) =>
      DomainWork(w.tasks + [n],
                 DomainBatch(if w.batch.sharedInbox.Some? then w.batch.sharedInbox else batch.sharedInbox,
                             w.batch.recipients + batch.recipients))
  }

  function Lookup<V>(m: map<string, V>, d: string): Option<V> {
    if d in m then Some(m[d]) else None
  }

  /** The inner loop: one task's batches into the per-domain work. */
  method MergeTask(
      n: nat, taskDomains: seq<string>, taskBatches: map<string, DomainBatch>,
      domainsBefore: seq<string>, worksBefore: map<string, DomainWork>)
    returns (domains: seq<string>, works: map<string, DomainWork>)
    requires NoDuplicates(taskDomains) && forall d :: d in taskDomains ==> d in taskBatches
    requires forall d :: d in worksBefore <==> d in domainsBefore
    ensures domains == AddAll(domainsBefore, taskDomains)
    ensures forall d :: d in works <==> d in domains
    ensures forall d :: d in domains <==> d in domainsBefore || d in taskDomains
    ensures forall d :: d in works ==>
              works[d] == if d in taskDomains then Merged(Lookup(worksBefore, d), n, taskBatches[d]) else worksBefore[d]
  {
    domains, works := domainsBefore, worksBefore;
    var k := 0;
    while k < |taskDomains|
      invariant k <= |taskDomains|
      invariant domains == AddAll(domainsBefore, taskDomains[..k])
      invariant forall d :: d in works <==> d in domains
      invariant forall d :: d in domains <==> d in domainsBefore || d in taskDomains[..k]
      invariant forall d :: d in works ==>
                  works[d] == if d in taskDomains[..k] then Merged(Lookup(worksBefore, d), n, taskBatches[d])
                              else worksBefore[d]
    {
      assert taskDomains[..k + 1] == taskDomains[..k] + [taskDomains[k]];
      var domain := taskDomains[k];
      var batch := taskBatches[domain];
      assert domain !in taskDomains[..k];
      if domain !in works {
        works := works[domain := DomainWork([], DomainBatch(batch.sharedInbox, []))];
        domains := domains + [domain];
      }
      var existing := works[domain];
      var shared := existing.batch.sharedInbox;
      if batch.sharedInbox.Some? && shared.None? {
        shared := batch.sharedInbox;
      }
      var recipients := existing.batch.recipients + batch.recipients;
      assert existing.tasks == [] && existing.batch.recipients == [] ==>
               existing.tasks + [n] == [n] && recipients == batch.recipients;
      works := works[domain := DomainWork(existing.tasks + [n], DomainBatch(shared, recipients))];
      k := k + 1;
    }
    assert taskDomains[..k] == taskDomains;
  }

  lemma {:induction false} FirstSharedOfConcat(a: seq<Recipient>, b: seq<Recipient>)
    ensures FirstShared(a + b) == if FirstShared(a).Some? then FirstShared(a) else FirstShared(b)
  {
    if b == [] {
      assert a + b == a;
    } else {
      assert (a + b)[..|a + b| - 1] == a + b[..|b| - 1];
      FirstSharedOfConcat(a, b[..|b| - 1]);
    }
  }

  ghost function Here(extract: Extract, tasks: seq<Task>, domain: string): seq<Recipient>
    requires tasks != []
  {
    ForDomain(extract, tasks[|tasks| - 1].recipients, domain)
  }

  lemma WorkSkips(extract: Extract, tasks: seq<Task>, domain: string)
    requires tasks != [] && Here(extract, tasks, domain) == []
    ensures Work(extract, tasks, domain) == Work(extract, tasks[..|tasks| - 1], domain)
  {
    var before := Gathered(extract, tasks[..|tasks| - 1], domain);
    assert before + [] == before;
  }

  function WorkFrom(at: seq<nat>, gathered: seq<Recipient>): DomainWork {
    DomainWork(at, DomainBatch(FirstShared(gathered), gathered))
  }

  lemma MergedIs(at: seq<nat>, before: seq<Recipient>, n: nat, rs: seq<Recipient>)
    requires before == [] ==> at == []
    ensures WorkFrom(at + [n], before + rs)
         == Merged(if before == [] then None else Some(WorkFrom(at, before)), n, DomainBatch(FirstShared(rs), rs))
  {
    FirstSharedOfConcat(before, rs);
    if before == [] {
      assert before + rs == rs && at + [n] == [n];
    }
  }

  lemma WorkMerges(extract: Extract, tasks: seq<Task>, domain: string)
    requires tasks != [] && Here(extract, tasks, domain) != []
    ensures var front, rs := tasks[..|tasks| - 1], Here(extract, tasks, domain);
            var prior := if Gathered(extract, front, domain) == [] then None else Some(Work(extract, front, domain));
            Work(extract, tasks, domain) == Merged(prior, |tasks| - 1, DomainBatch(FirstShared(rs), rs))
  {
    var front := tasks[..|tasks| - 1];
    if Gathered(extract, front, domain) == [] {
      NothingGathered(extract, front, domain);
    }
    MergedIs(
      TasksReaching(extract, front, domain), Gathered(extract, front, domain), |front|, Here(extract, tasks, domain));
  }

  lemma {:induction false} NothingGathered(extract: Extract, tasks: seq<Task>, domain: string)
    requires Gathered(extract, tasks, domain) == []
    ensures TasksReaching(extract, tasks, domain) == []
  {
    if tasks != [] {
      NothingGathered(extract, tasks[..|tasks| - 1], domain);
    }
  }

  /** The domains worked on are the parsable ones, each once. */
  lemma {:induction false} AllDomainsAre(extract: Extract, tasks: seq<Task>)
    ensures NoDuplicates(AllDomains(extract, tasks))
    ensures forall d :: d in AllDomains(extract, tasks) <==> d != "" && Gathered(extract, tasks, d) != []
  {
    if tasks != [] {
      var n := |tasks| - 1;
      AllDomainsAre(extract, tasks[..n]);
      EmptyIsNoDomain(extract, tasks[n].recipients);
      AddAllHolds(AllDomains(extract, tasks[..n]), DomainsOf(extract, tasks[n].recipients));
    }
  }

  /** First phase of `processDeliveryTasks`: consolidate the recipients of all tasks by domain. */
  method Consolidate(extract: Extract, tasks: seq<Task>)
    returns (domains: seq<string>, works: map<string, DomainWork>)
    ensures domains == AllDomains(extract, tasks)
    ensures forall d :: d in works <==> d in domains
    ensures forall d :: d in works ==> works[d] == Work(extract, tasks, d)
  {
    domains, works := [], map[];
    hide Merged, FirstShared, Gathered, DomainsOf, TasksReaching, AddAll, ForDomain;
    var n := 0;
    while n < |tasks|
      invariant n <= |tasks|
      invariant domains == AllDomains(extract, tasks[..n])
      invariant forall d :: d in works <==> d in domains
      invariant forall d :: d in works ==> works[d] == Work(extract, tasks[..n], d)
    {
      var taskDomains, taskBatches := GroupByDomain(extract, tasks[n].recipients);
      ghost var prefix, before := tasks[..n + 1], works;
      assert prefix[..n] == tasks[..n];
      EmptyIsNoDomain(extract, tasks[n].recipients);
      AllDomainsAre(extract, tasks[..n]);
      domains, works := MergeTask(n, taskDomains, taskBatches, domains, works);
      forall d | d in works ensures works[d] == Work(extract, prefix, d) {
        if d in taskDomains {
          WorkMerges(extract, prefix, d);
        } else {
          WorkSkips(extract, prefix, d);
        }
      }
      n := n + 1;
    }
    assert tasks[..n] == tasks;
  }

  /** Second phase for one domain: each of its tasks gets its own delivery, until one throws. */
  method DeliverDomain(
      extract: Extract, tasks: seq<Task>, domain: string, work: DomainWork, fails: (string, nat) -> bool)
    returns (calls: seq<Call>)
    requires work == Work(extract, tasks, domain)
    ensures forall i: nat :: i in TasksReaching(extract, tasks, domain) ==> i < |tasks|
    ensures calls == DomainCalls(extract, tasks, domain, TasksReaching(extract, tasks, domain), fails)
  {
    ReachingIsBounded(extract, tasks, domain);
    calls := [];
    var rest := work.tasks;
    while |rest| > 0
      invariant forall i: nat :: i in rest ==> i in work.tasks
      invariant calls + DomainCalls(extract, tasks, domain, rest, fails)
             == DomainCalls(extract, tasks, domain, work.tasks, fails)
    {
      var i := rest[0];
      assert i in rest && forall j: nat :: j in rest[1..] ==> j in rest;
      var taskRecipients := ForDomain(extract, tasks[i].recipients, domain);
      if |taskRecipients| > 0 {
        var call := Call(domain, i, work.batch.sharedInbox, taskRecipients);
        FirstCall(extract, tasks, domain, rest, fails, calls, call);
        calls := calls + [call];
        if fails(domain, i) {
          return;
        }
      }
      rest := rest[1..];
    }
  }

  lemma FirstCall(
      extract: Extract, tasks: seq<Task>, domain: string, at: seq<nat>, fails: (string, nat) -> bool,
      done: seq<Call>, call: Call)
    requires at != [] && forall i: nat :: i in at ==> i < |tasks|
    requires at[0] in at && call == CallFor(extract, tasks, domain, at[0])
    ensures forall i: nat :: i in at[1..] ==> i in at
    ensures done + DomainCalls(extract, tasks, domain, at, fails)
         == done + [call] + if fails(domain, at[0]) then [] else DomainCalls(extract, tasks, domain, at[1..], fails)
  {
    assert forall i: nat :: i in at[1..] ==> i in at;
    var tail := if fails(domain, at[0]) then [] else DomainCalls(extract, tasks, domain, at[1..], fails);
    assert done + ([call] + tail) == done + [call] + tail;
  }

  /** `processDeliveryTasks`: the deliveries made, those of a domain in order. */
  method ProcessDeliveryTasks(extract: Extract, tasks: seq<Task>, fails: (string, nat) -> bool)
    returns (calls: seq<Call>)
    ensures calls == AllCalls(extract, tasks, AllDomains(extract, tasks), fails)
  {
    var domains, works := Consolidate(extract, tasks);
    calls := [];
    var k := 0;
    while k < |domains|
      invariant k <= |domains|
      invariant calls == AllCalls(extract, tasks, domains[..k], fails)
    {
      assert domains[..k + 1][..k] == domains[..k];
      assert domains[k] in domains;
      var more := DeliverDomain(extract, tasks, domains[k], works[domains[k]], fails);
      calls := calls + more;
      k := k + 1;
    }
    assert domains[..k] == domains;
  }

  // ----- the calls partition the recipients -----

  ghost predicate Reaches(extract: Extract, tasks: seq<Task>, domain: string, i: nat) {
    i < |tasks| && domain != "" && exists r :: r in tasks[i].recipients && Hostname(extract, r) == domain
  }

  lemma {:induction false} ForDomainHolds(extract: Extract, rs: seq<Recipient>, domain: string)
    ensures forall r :: r in ForDomain(extract, rs, domain) <==> r in rs && Hostname(extract, r) == domain
  {
    if rs != [] {
      ForDomainHolds(extract, rs[..|rs| - 1], domain);
      assert rs == rs[..|rs| - 1] + [rs[|rs| - 1]];
    }
  }

  lemma ReachesIff(extract: Extract, tasks: seq<Task>, domain: string, i: nat)
    ensures Reaches(extract, tasks, domain, i)
       <==> i < |tasks| && domain != "" && ForDomain(extract, tasks[i].recipients, domain) != []
  {
    if i < |tasks| {
      ForDomainHolds(extract, tasks[i].recipients, domain);
      var mine := ForDomain(extract, tasks[i].recipients, domain);
      assert mine != [] ==> mine[0] in mine;
    }
  }

  lemma ReachingAre(extract: Extract, tasks: seq<Task>, domain: string)
    requires domain != ""
    ensures forall i: nat :: i in TasksReaching(extract, tasks, domain) <==> Reaches(extract, tasks, domain, i)
    ensures forall i: nat :: i in TasksReaching(extract, tasks, domain) ==> i < |tasks|
  {
    hide Reaches;
    ReachingIsBounded(extract, tasks, domain);
    forall i: nat
      ensures i in TasksReaching(extract, tasks, domain) <==> Reaches(extract, tasks, domain, i)
    {
      ReachesIff(extract, tasks, domain, i);
    }
  }

  /** No earlier delivery to the domain failed. */
  ghost predicate NotCutOff(
      extract: Extract, tasks: seq<Task>, domain: string, i: nat, fails: (string, nat) -> bool) {
    forall j: nat :: j < i && Reaches(extract, tasks, domain, j) ==> !fails(domain, j)
  }

  /** None of the first k deliveries fails. */
  ghost predicate NoneFails(domain: string, at: seq<nat>, k: nat, fails: (string, nat) -> bool)
    requires k <= |at|
  {
    forall i :: i in at[..k] ==> !fails(domain, i)
  }

  lemma {:induction false} DomainCallAt(
      extract: Extract, tasks: seq<Task>, domain: string, at: seq<nat>, fails: (string, nat) -> bool, k: nat)
    requires k < |at| && forall i: nat :: i in at ==> i < |tasks|
    ensures var calls := DomainCalls(extract, tasks, domain, at, fails);
            && |calls| <= |at|
            && (k < |calls| <==> NoneFails(domain, at, k, fails))
            && (k < |calls| ==> at[k] in at && calls[k] == CallFor(extract, tasks, domain, at[k]))
  {
    var rest := at[1..];
    assert at[0] in at && at[k] in at && forall i: nat :: i in rest ==> i in at;
    if k > 0 {
      assert at[..k] == [at[0]] + rest[..k - 1];
      DomainCallAt(extract, tasks, domain, rest, fails, k - 1);
    } else if rest != [] {
      DomainCallAt(extract, tasks, domain, rest, fails, 0);
    }
  }

  ghost predicate IsCall(calls: seq<Call>, domain: string, i: nat) {
    exists k :: 0 <= k < |calls| && calls[k].domain == domain && calls[k].task == i
  }

  /** The calls of one domain: each reaching task not cut off by an earlier failure, once, with its filter. */
  ghost predicate RoutesOne(
      extract: Extract, tasks: seq<Task>, domain: string, fails: (string, nat) -> bool, calls: seq<Call>) {
    && (forall i: nat :: IsCall(calls, domain, i) <==>
          Reaches(extract, tasks, domain, i) && NotCutOff(extract, tasks, domain, i, fails))
    && (forall a, b :: 0 <= a < b < |calls| ==> calls[a].task < calls[b].task)
    && (forall k :: 0 <= k < |calls| ==> IsShare(extract, tasks, domain, calls[k]))
  }

  ghost predicate IsShare(extract: Extract, tasks: seq<Task>, domain: string, c: Call) {
    c.domain == domain && c.task < |tasks| && c == CallFor(extract, tasks, domain, c.task)
  }

  lemma CallAtPosition(
      extract: Extract, tasks: seq<Task>, domain: string, at: seq<nat>, fails: (string, nat) -> bool, k: nat)
    requires domain != "" && at == TasksReaching(extract, tasks, domain) && k < |at|
    ensures forall j: nat :: j in at ==> j < |tasks|
    ensures var calls := DomainCalls(extract, tasks, domain, at, fails);
            && |calls| <= |at| && Reaches(extract, tasks, domain, at[k])
            && (k < |calls| <==> NotCutOff(extract, tasks, domain, at[k], fails))
            && (k < |calls| ==> IsShare(extract, tasks, domain, calls[k]) && calls[k].task == at[k])
  {
    hide Reaches;
    ReachingAre(extract, tasks, domain);
    DomainCallAt(extract, tasks, domain, at, fails, k);
    CutOffAt(extract, tasks, domain, at, k, fails);
    assert at[k] in at;
  }

  lemma DomainRouting(extract: Extract, tasks: seq<Task>, domain: string, fails: (string, nat) -> bool)
    requires domain != ""
    ensures forall j: nat :: j in TasksReaching(extract, tasks, domain) ==> j < |tasks|
    ensures RoutesOne(extract, tasks, domain, fails,
                      DomainCalls(extract, tasks, domain, TasksReaching(extract, tasks, domain), fails))
  {
    hide Reaches, NotCutOff, TasksReaching, CallFor;
    var at := TasksReaching(extract, tasks, domain);
    ReachingAre(extract, tasks, domain);
    ReachingAscends(extract, tasks, domain);
    var calls := DomainCalls(extract, tasks, domain, at, fails);
    forall k | 0 <= k < |at|
      ensures |calls| <= |at| && Reaches(extract, tasks, domain, at[k])
      ensures k < |calls| <==> NotCutOff(extract, tasks, domain, at[k], fails)
      ensures k < |calls| ==> IsShare(extract, tasks, domain, calls[k]) && calls[k].task == at[k]
    {
      CallAtPosition(extract, tasks, domain, at, fails, k);
    }
    forall i: nat
      ensures IsCall(calls, domain, i) <==>
                Reaches(extract, tasks, domain, i) && NotCutOff(extract, tasks, domain, i, fails)
    {
      if Reaches(extract, tasks, domain, i) && NotCutOff(extract, tasks, domain, i, fails) {
        var k :| 0 <= k < |at| && at[k] == i;
        assert calls[k].domain == domain && calls[k].task == i;
      }
    }
  }

  lemma CutOffAt(
      extract: Extract, tasks: seq<Task>, domain: string, at: seq<nat>, k: nat, fails: (string, nat) -> bool)
    requires domain != "" && at == TasksReaching(extract, tasks, domain) && k < |at|
    ensures NotCutOff(extract, tasks, domain, at[k], fails) <==> NoneFails(domain, at, k, fails)
  {
    hide Reaches;
    ReachingAre(extract, tasks, domain);
    ReachingAscends(extract, tasks, domain);
    assert at[k] in at;
    if NotCutOff(extract, tasks, domain, at[k], fails) {
      forall i | i in at[..k] ensures !fails(domain, i) {
        assert i in at && Reaches(extract, tasks, domain, i);
      }
    }
    if NoneFails(domain, at, k, fails) {
      forall i: nat | i < at[k] && Reaches(extract, tasks, domain, i) ensures !fails(domain, i) {
        var j :| 0 <= j < |at| && at[j] == i;
        assert j < k && at[..k][j] == i;
      }
    }
  }

  ghost predicate RoutingOver(
      extract: Extract, tasks: seq<Task>, domains: seq<string>, fails: (string, nat) -> bool, calls: seq<Call>) {
    && (forall domain, i: nat :: IsCall(calls, domain, i) <==>
          domain in domains && Reaches(extract, tasks, domain, i) && NotCutOff(extract, tasks, domain, i, fails))
    && (forall a, b :: 0 <= a < b < |calls| ==> calls[a].domain != calls[b].domain || calls[a].task != calls[b].task)
    && (forall k :: 0 <= k < |calls| ==> IsShare(extract, tasks, calls[k].domain, calls[k]))
  }

  lemma IsCallInConcat(a: seq<Call>, b: seq<Call>, domain: string, i: nat)
    ensures IsCall(a + b, domain, i) <==> IsCall(a, domain, i) || IsCall(b, domain, i)
  {
    if IsCall(a, domain, i) {
      var k :| 0 <= k < |a| && a[k].domain == domain && a[k].task == i;
      assert (a + b)[k] == a[k];
    }
    if IsCall(b, domain, i) {
      var k :| 0 <= k < |b| && b[k].domain == domain && b[k].task == i;
      assert (a + b)[|a| + k] == b[k];
    }
  }

  lemma OtherDomain(calls: seq<Call>, domain: string, other: string, i: nat)
    requires domain != other && forall k :: 0 <= k < |calls| ==> calls[k].domain == domain
    ensures !IsCall(calls, other, i)
  {
  }

  lemma JoinKeepsMembership(
      extract: Extract, tasks: seq<Task>, domains: seq<string>, last: string, fails: (string, nat) -> bool,
      calls: seq<Call>, more: seq<Call>, domain: string, i: nat)
    requires last !in domains
    requires RoutingOver(extract, tasks, domains, fails, calls) && RoutesOne(extract, tasks, last, fails, more)
    ensures IsCall(calls + more, domain, i) <==>
              domain in domains + [last] && Reaches(extract, tasks, domain, i)
              && NotCutOff(extract, tasks, domain, i, fails)
  {
    IsCallInConcat(calls, more, domain, i);
    assert forall k :: 0 <= k < |more| ==> IsShare(extract, tasks, last, more[k]);
    if domain != last {
      OtherDomain(more, last, domain, i);
    }
  }

  lemma JoinRoutings(
      extract: Extract, tasks: seq<Task>, domains: seq<string>, last: string, fails: (string, nat) -> bool,
      calls: seq<Call>, more: seq<Call>)
    requires last !in domains
    requires RoutingOver(extract, tasks, domains, fails, calls) && RoutesOne(extract, tasks, last, fails, more)
    ensures RoutingOver(extract, tasks, domains + [last], fails, calls + more)
  {
    forall domain, i: nat
      ensures IsCall(calls + more, domain, i) <==>
                domain in domains + [last] && Reaches(extract, tasks, domain, i)
                && NotCutOff(extract, tasks, domain, i, fails)
    {
      JoinKeepsMembership(extract, tasks, domains, last, fails, calls, more, domain, i);
    }
    forall k | 0 <= k < |calls| ensures calls[k].domain != last {
      assert IsCall(calls, calls[k].domain, calls[k].task);
    }
    assert forall k :: 0 <= k < |more| ==> IsShare(extract, tasks, last, more[k]);
  }

  lemma {:induction false} RoutingOfDomains(
      extract: Extract, tasks: seq<Task>, domains: seq<string>, fails: (string, nat) -> bool)
    requires NoDuplicates(domains) && "" !in domains
    ensures RoutingOver(extract, tasks, domains, fails, AllCalls(extract, tasks, domains, fails))
  {
    if domains != [] {
      var n := |domains| - 1;
      var last := domains[n];
      RoutingOfDomains(extract, tasks, domains[..n], fails);
      DomainRouting(extract, tasks, last, fails);
      var more := DomainCalls(extract, tasks, last, TasksReaching(extract, tasks, last), fails);
      JoinRoutings(extract, tasks, domains[..n], last, fails, AllCalls(extract, tasks, domains[..n], fails), more);
      assert domains[..n] + [last] == domains;
    }
  }

  /** A filter keeps the recipients of its domain with their multiplicities, and no others. */
  lemma {:induction false} FilterKeeps(extract: Extract, rs: seq<Recipient>, domain: string, r: Recipient)
    ensures multiset(ForDomain(extract, rs, domain))[r] == if Hostname(extract, r) == domain then multiset(rs)[r] else 0
  {
    if rs != [] {
      var n := |rs| - 1;
      FilterKeeps(extract, rs[..n], domain, r);
      assert rs == rs[..n] + [rs[n]];
    }
  }

  /** The call carries every recipient of its domain as often as the task lists it, and nobody else. */
  ghost predicate CarriesItsShare(extract: Extract, rs: seq<Recipient>, c: Call) {
    forall r :: multiset(c.recipients)[r] == if Hostname(extract, r) == c.domain then multiset(rs)[r] else 0
  }

  /**
   Exact partition. A task's recipients of a domain travel in one call to that domain, complete and in order,
   exactly when the domain parsed and no earlier delivery to it failed; no call carries anything else.
   */
  lemma CallsPartition(extract: Extract, tasks: seq<Task>, fails: (string, nat) -> bool)
    ensures var calls := AllCalls(extract, tasks, AllDomains(extract, tasks), fails);
            && (forall domain, i: nat :: IsCall(calls, domain, i) <==>
                  Reaches(extract, tasks, domain, i) && NotCutOff(extract, tasks, domain, i, fails))
            && (forall a, b :: 0 <= a < b < |calls| ==>
                  calls[a].domain != calls[b].domain || calls[a].task != calls[b].task)
            && (forall c :: c in calls ==> c.task < |tasks| && CarriesItsShare(extract, tasks[c.task].recipients, c))
            && (forall c :: c in calls ==> c.recipients == ForDomain(extract, tasks[c.task].recipients, c.domain))
  {
    hide Reaches;
    var domains := AllDomains(extract, tasks);
    AllDomainsAre(extract, tasks);
    RoutingOfDomains(extract, tasks, domains, fails);
    var calls := AllCalls(extract, tasks, domains, fails);
    forall domain, i: nat | Reaches(extract, tasks, domain, i) ensures domain in domains {
      ReachesIff(extract, tasks, domain, i);
      GatheredHolds(extract, tasks, domain, i);
    }
    forall c | c in calls
      ensures c.task < |tasks| && CarriesItsShare(extract, tasks[c.task].recipients, c)
      ensures c.recipients == ForDomain(extract, tasks[c.task].recipients, c.domain)
    {
      var k :| 0 <= k < |calls| && calls[k] == c;
      assert IsShare(extract, tasks, calls[k].domain, calls[k]);
      forall r {
        FilterKeeps(extract, tasks[c.task].recipients, c.domain, r);
      }
    }
  }

  /** The shared inbox the first recipient offers that offers one; an empty one is none. */
  ghost predicate FirstOffered(rs: seq<Recipient>, shared: Option<string>) {
    match shared
    case None => forall i :: 0 <= i < |rs| ==> OffersNone(rs[i])
    case Some(url) =>
      url != "" && exists i :: 0 <= i < |rs| && rs[i].sharedInbox == shared
                               && forall j :: 0 <= j < i ==> OffersNone(rs[j])
  }

  ghost predicate OffersNone(r: Recipient) {
    r.sharedInbox == None || r.sharedInbox == Some("")
  }

  lemma {:induction false} FirstSharedIs(rs: seq<Recipient>)
    ensures FirstOffered(rs, FirstShared(rs))
  {
    if rs != [] {
      var n := |rs| - 1;
      FirstSharedIs(rs[..n]);
      var earlier := FirstShared(rs[..n]);
      if earlier.Some? {
        var i :| 0 <= i < n && rs[..n][i].sharedInbox == earlier && forall j :: 0 <= j < i ==> OffersNone(rs[..n][j]);
        assert rs[i].sharedInbox == earlier && forall j :: 0 <= j < i ==> rs[j] == rs[..n][j];
      } else {
        assert forall j :: 0 <= j < n ==> rs[j] == rs[..n][j];
      }
    }
  }

  /** Every call to a domain uses the same shared inbox: the first its recipients offer, whichever task lists them. */
  lemma CallsShareTheInbox(extract: Extract, tasks: seq<Task>, fails: (string, nat) -> bool)
    ensures forall c :: c in AllCalls(extract, tasks, AllDomains(extract, tasks), fails) ==>
              c.sharedInbox == FirstShared(Gathered(extract, tasks, c.domain))
              && FirstOffered(Gathered(extract, tasks, c.domain), c.sharedInbox)
  {
    var domains := AllDomains(extract, tasks);
    AllDomainsAre(extract, tasks);
    RoutingOfDomains(extract, tasks, domains, fails);
    var calls := AllCalls(extract, tasks, domains, fails);
    forall c | c in calls 
      ensures c.sharedInbox == FirstShared(Gathered(extract, tasks, c.domain))
      ensures FirstOffered(Gathered(extract, tasks, c.domain), c.sharedInbox)
    {
      var k :| 0 <= k < |calls| && calls[k] == c;
      assert IsShare(extract, tasks, calls[k].domain, calls[k]);
      FirstSharedIs(Gathered(extract, tasks, c.domain));
    }
  }

  lemma {:induction false} GatheredHolds(extract: Extract, tasks: seq<Task>, domain: string, i: nat)
    requires i < |tasks| && ForDomain(extract, tasks[i].recipients, domain) != []
    ensures Gathered(extract, tasks, domain) != []
  {
    if i < |tasks| - 1 {
      GatheredHolds(extract, tasks[..|tasks| - 1], domain, i);
    }
  }

  /** The domains worked on are the parsable ones that some task's recipient is delivered at, each once. */
  lemma DomainsAreReached(extract: Extract, tasks: seq<Task>, domain: string)
    ensures NoDuplicates(AllDomains(extract, tasks))
    ensures domain in AllDomains(extract, tasks) <==> exists i: nat :: Reaches(extract, tasks, domain, i)
  {
    hide Reaches;
    AllDomainsAre(extract, tasks);
    if domain in AllDomains(extract, tasks) {
      var i := GatheredFrom(extract, tasks, domain);
      ReachesIff(extract, tasks, domain, i);
    }
    if i: nat :| Reaches(extract, tasks, domain, i) {
      ReachesIff(extract, tasks, domain, i);
      GatheredHolds(extract, tasks, domain, i);
    }
  }

  lemma {:induction false} GatheredFrom(extract: Extract, tasks: seq<Task>, domain: string) returns (i: nat)
    requires Gathered(extract, tasks, domain) != []
    ensures i < |tasks| && ForDomain(extract, tasks[i].recipients, domain) != []
  {
    i := |tasks| - 1;
    if ForDomain(extract, tasks[i].recipients, domain) == [] {
      i := GatheredFrom(extract, tasks[..i], domain);
    }
  }

  // ----- request accounting -----

  /** HTTP requests one call attempts; a failed one does not stop the others of its call. */
  function Posts(c: Call): nat {
    if c.sharedInbox.Some? && |c.recipients| > 1 then 1 else |c.recipients|
  }

  /** What one call adds to the deliveriesOptimized counter. */
  function Optimized(c: Call): nat {
    if c.sharedInbox.Some? && |c.recipients| > 1 then |c.recipients| - 1 else 0
  }

  function TotalPosts(calls: seq<Call>): nat {
    if calls == [] then 0 else TotalPosts(calls[..|calls| - 1]) + Posts(calls[|calls| - 1])
  }

  function TotalOptimized(calls: seq<Call>): nat {
    if calls == [] then 0 else TotalOptimized(calls[..|calls| - 1]) + Optimized(calls[|calls| - 1])
  }

  function Carried(calls: seq<Call>): nat {
    if calls == [] then 0 else Carried(calls[..|calls| - 1]) + |calls[|calls| - 1].recipients|
  }

  /** The (task, recipient) pairs whose domain parses. */
  ghost function RoutableIn(extract: Extract, rs: seq<Recipient>): nat {
    if rs == [] then 0
    else RoutableIn(extract, rs[..|rs| - 1]) + if Hostname(extract, rs[|rs| - 1]) == "" then 0 else 1
  }

  ghost function Routable(extract: Extract, tasks: seq<Task>): nat {
    if tasks == [] then 0
    else Routable(extract, tasks[..|tasks| - 1]) + RoutableIn(extract, tasks[|tasks| - 1].recipients)
  }

  lemma {:induction false} RequestsAddUp(calls: seq<Call>)
    ensures TotalPosts(calls) + TotalOptimized(calls) == Carried(calls)
  {
    if calls != [] {
      RequestsAddUp(calls[..|calls| - 1]);
    }
  }

  lemma {:induction false} CarriedConcat(a: seq<Call>, b: seq<Call>)
    ensures Carried(a + b) == Carried(a) + Carried(b)
  {
    if b == [] {
      assert a + b == a;
    } else {
      assert (a + b)[..|a + b| - 1] == a + b[..|b| - 1];
      CarriedConcat(a, b[..|b| - 1]);
    }
  }

  /** Recipients in the filters of the given domains. */
  function Spread(extract: Extract, rs: seq<Recipient>, domains: seq<string>): nat {
    if domains == [] then 0
    else Spread(extract, rs, domains[..|domains| - 1]) + |ForDomain(extract, rs, domains[|domains| - 1])|
  }

  lemma {:induction false} SpreadGrows(extract: Extract, rs: seq<Recipient>, domains: seq<string>)
    requires rs != [] && NoDuplicates(domains)
    ensures Spread(extract, rs, domains)
         == Spread(extract, rs[..|rs| - 1], domains)
            + if DomainOf(extract, rs[|rs| - 1]) in domains then 1 else 0
  {
    if domains != [] {
      var n := |domains| - 1;
      SpreadGrows(extract, rs, domains[..n]);
      assert domains == domains[..n] + [domains[n]];
    }
  }

  lemma {:induction false} SpreadIsRoutable(extract: Extract, rs: seq<Recipient>, domains: seq<string>)
    requires NoDuplicates(domains) && "" !in domains
    requires forall d :: d in DomainsOf(extract, rs) ==> d in domains
    ensures Spread(extract, rs, domains) == RoutableIn(extract, rs)
  {
    if rs != [] {
      SpreadIsRoutable(extract, rs[..|rs| - 1], domains);
      SpreadGrows(extract, rs, domains);
    } else {
      SpreadOfNone(extract, domains);
    }
  }

  lemma {:induction false} SpreadOfNone(extract: Extract, domains: seq<string>)
    ensures Spread(extract, [], domains) == 0
  {
    if domains != [] {
      SpreadOfNone(extract, domains[..|domains| - 1]);
    }
  }

  /** Everything gathered for the given domains. */
  function GatheredIn(extract: Extract, tasks: seq<Task>, domains: seq<string>): nat {
    if domains == [] then 0
    else GatheredIn(extract, tasks, domains[..|domains| - 1]) + |Gathered(extract, tasks, domains[|domains| - 1])|
  }

  lemma {:induction false} GatheredGrows(extract: Extract, tasks: seq<Task>, domains: seq<string>)
    requires tasks != []
    ensures GatheredIn(extract, tasks, domains)
         == GatheredIn(extract, tasks[..|tasks| - 1], domains) + Spread(extract, tasks[|tasks| - 1].recipients, domains)
  {
    if domains != [] {
      GatheredGrows(extract, tasks, domains[..|domains| - 1]);
    }
  }

  lemma {:induction false} GatheredIsRoutable(extract: Extract, tasks: seq<Task>, domains: seq<string>)
    requires NoDuplicates(domains) && "" !in domains
    requires forall d :: d in AllDomains(extract, tasks) ==> d in domains
    ensures GatheredIn(extract, tasks, domains) == Routable(extract, tasks)
  {
    if tasks != [] {
      var n := |tasks| - 1;
      AddAllHolds(AllDomains(extract, tasks[..n]), DomainsOf(extract, tasks[n].recipients));
      GatheredIsRoutable(extract, tasks[..n], domains);
      SpreadIsRoutable(extract, tasks[n].recipients, domains);
      GatheredGrows(extract, tasks, domains);
    } else {
      GatheredOfNone(extract, domains);
    }
  }

  lemma {:induction false} GatheredOfNone(extract: Extract, domains: seq<string>)
    ensures GatheredIn(extract, [], domains) == 0
  {
    if domains != [] {
      GatheredOfNone(extract, domains[..|domains| - 1]);
    }
  }

  function FilterTotal(extract: Extract, tasks: seq<Task>, domain: string, at: seq<nat>): nat
    requires forall i: nat :: i in at ==> i < |tasks|
  {
    if at == [] then 0
    else
      assert at[0] in at && forall i: nat :: i in at[1..] ==> i in at;
      |ForDomain(extract, tasks[at[0]].recipients, domain)| + FilterTotal(extract, tasks, domain, at[1..])
  }

  /** Recipients of the tasks after the first failed one. */
  function CutOffIn(
      extract: Extract, tasks: seq<Task>, domain: string, at: seq<nat>, fails: (string, nat) -> bool): nat
    requires forall i: nat :: i in at ==> i < |tasks|
  {
    if at == [] then 0
    else
      assert at[0] in at && forall i: nat :: i in at[1..] ==> i in at;
      if fails(domain, at[0]) then FilterTotal(extract, tasks, domain, at[1..])
      else CutOffIn(extract, tasks, domain, at[1..], fails)
  }

  lemma {:induction false} DomainCarries(
      extract: Extract, tasks: seq<Task>, domain: string, at: seq<nat>, fails: (string, nat) -> bool)
    requires forall i: nat :: i in at ==> i < |tasks|
    ensures Carried(DomainCalls(extract, tasks, domain, at, fails)) + CutOffIn(extract, tasks, domain, at, fails)
         == FilterTotal(extract, tasks, domain, at)
  {
    if at != [] {
      assert at[0] in at && forall i: nat :: i in at[1..] ==> i in at;
      DomainCarries(extract, tasks, domain, at[1..], fails);
      var first := [CallFor(extract, tasks, domain, at[0])];
      CarriedConcat(first, DomainCalls(extract, tasks, domain, at[1..], fails));
      assert first[..0] == [] && first + [] == first;
    }
  }

  lemma {:induction false} FilterTotalExtends(extract: Extract, tasks: seq<Task>, domain: string, at: seq<nat>, i: nat)
    requires forall j: nat :: j in at ==> j < |tasks|
    requires i < |tasks|
    ensures FilterTotal(extract, tasks, domain, at + [i])
         == FilterTotal(extract, tasks, domain, at) + |ForDomain(extract, tasks[i].recipients, domain)|
  {
    if at == [] {
      assert at + [i] == [i] && [i][1..] == [];
    } else {
      assert forall j: nat :: j in at[1..] ==> j in at;
      FilterTotalExtends(extract, tasks, domain, at[1..], i);
      assert (at + [i])[1..] == at[1..] + [i];
    }
  }

  lemma {:induction false} FilterTotalOfPrefix(
      extract: Extract, tasks: seq<Task>, more: seq<Task>, domain: string, at: seq<nat>)
    requires tasks <= more && forall j: nat :: j in at ==> j < |tasks|
    ensures FilterTotal(extract, tasks, domain, at) == FilterTotal(extract, more, domain, at)
  {
    if at != [] {
      assert at[0] in at && forall j: nat :: j in at[1..] ==> j in at;
      FilterTotalOfPrefix(extract, tasks, more, domain, at[1..]);
    }
  }

  lemma FilterTotalStep(extract: Extract, tasks: seq<Task>, domain: string, at: seq<nat>)
    requires tasks != [] && at == TasksReaching(extract, tasks[..|tasks| - 1], domain)
    ensures forall j: nat :: j in at ==> j < |tasks| - 1
    ensures forall j: nat :: j in TasksReaching(extract, tasks, domain) ==> j < |tasks|
    ensures FilterTotal(extract, tasks, domain, TasksReaching(extract, tasks, domain))
         == FilterTotal(extract, tasks[..|tasks| - 1], domain, at) + |Here(extract, tasks, domain)|
  {
    var n := |tasks| - 1;
    ReachingIsBounded(extract, tasks, domain);
    ReachingIsBounded(extract, tasks[..n], domain);
    FilterTotalOfPrefix(extract, tasks[..n], tasks, domain, at);
    if Here(extract, tasks, domain) != [] {
      FilterTotalExtends(extract, tasks, domain, at, n);
    } else {
      assert at + [] == at;
    }
  }

  lemma {:induction false} FilterTotalIsGathered(extract: Extract, tasks: seq<Task>, domain: string)
    ensures forall j: nat :: j in TasksReaching(extract, tasks, domain) ==> j < |tasks|
    ensures FilterTotal(extract, tasks, domain, TasksReaching(extract, tasks, domain))
         == |Gathered(extract, tasks, domain)|
  {
    if tasks != [] {
      FilterTotalIsGathered(extract, tasks[..|tasks| - 1], domain);
      FilterTotalStep(extract, tasks, domain, TasksReaching(extract, tasks[..|tasks| - 1], domain));
    }
  }

  /** Over all domains, the recipients whose delivery was never tried because an earlier one to the domain failed. */
  function CutOff(extract: Extract, tasks: seq<Task>, domains: seq<string>, fails: (string, nat) -> bool): nat {
    if domains == [] then 0
    else
      var n := |domains| - 1;
      ReachingIsBounded(extract, tasks, domains[n]);
      CutOff(extract, tasks, domains[..n], fails)
      + CutOffIn(extract, tasks, domains[n], TasksReaching(extract, tasks, domains[n]), fails)
  }

  lemma {:induction false} AllCallsCarry(
      extract: Extract, tasks: seq<Task>, domains: seq<string>, fails: (string, nat) -> bool)
    ensures Carried(AllCalls(extract, tasks, domains, fails)) + CutOff(extract, tasks, domains, fails)
         == GatheredIn(extract, tasks, domains)
  {
    if domains != [] {
      var n := |domains| - 1;
      AllCallsCarry(extract, tasks, domains[..n], fails);
      FilterTotalIsGathered(extract, tasks, domains[n]);
      var at := TasksReaching(extract, tasks, domains[n]);
      DomainCarries(extract, tasks, domains[n], at, fails);
      CarriedConcat(AllCalls(extract, tasks, domains[..n], fails), DomainCalls(extract, tasks, domains[n], at, fails));
    }
  }

  /** What the counter gains: a failed call throws before it adds anything. */
  function TotalCounted(calls: seq<Call>, fails: (string, nat) -> bool): nat {
    if calls == [] then 0
    else
      var last := calls[|calls| - 1];
      TotalCounted(calls[..|calls| - 1], fails) + if fails(last.domain, last.task) then 0 else Optimized(last)
  }

  /** What failed shared-inbox calls would have added. */
  function TotalForgone(calls: seq<Call>, fails: (string, nat) -> bool): nat {
    if calls == [] then 0
    else
      var last := calls[|calls| - 1];
      TotalForgone(calls[..|calls| - 1], fails) + if fails(last.domain, last.task) then Optimized(last) else 0
  }

  lemma {:induction false} CountedOrForgone(calls: seq<Call>, fails: (string, nat) -> bool)
    ensures TotalCounted(calls, fails) + TotalForgone(calls, fails) == TotalOptimized(calls)
  {
    if calls != [] {
      CountedOrForgone(calls[..|calls| - 1], fails);
    }
  }

  /**
   Whatever fails: requests attempted, the optimized count, what failed shared-inbox calls would have added to it, and
   the recipients cut off by an earlier failure together are the routable (task, recipient) pairs.
   */
  lemma RequestAccounting(extract: Extract, tasks: seq<Task>, fails: (string, nat) -> bool)
    ensures var domains := AllDomains(extract, tasks);
            var calls := AllCalls(extract, tasks, domains, fails);
            TotalPosts(calls) + TotalCounted(calls, fails) + TotalForgone(calls, fails)
            + CutOff(extract, tasks, domains, fails) == Routable(extract, tasks)
  {
    var domains := AllDomains(extract, tasks);
    var calls := AllCalls(extract, tasks, domains, fails);
    AllDomainsAre(extract, tasks);
    AllCallsCarry(extract, tasks, domains, fails);
    GatheredIsRoutable(extract, tasks, domains);
    RequestsAddUp(calls);
    CountedOrForgone(calls, fails);
  }

  ghost predicate NoFailure(fails: (string, nat) -> bool) {
    forall domain, i :: !fails(domain, i)
  }

  lemma {:induction false} NothingForgone(calls: seq<Call>, fails: (string, nat) -> bool)
    requires NoFailure(fails)
    ensures TotalForgone(calls, fails) == 0
  {
    if calls != [] {
      NothingForgone(calls[..|calls| - 1], fails);
    }
  }

  lemma {:induction false} NobodyCutOffIn(
      extract: Extract, tasks: seq<Task>, domain: string, at: seq<nat>, fails: (string, nat) -> bool)
    requires NoFailure(fails) && forall i: nat :: i in at ==> i < |tasks|
    ensures CutOffIn(extract, tasks, domain, at, fails) == 0
  {
    if at != [] {
      assert at[0] in at && forall i: nat :: i in at[1..] ==> i in at;
      NobodyCutOffIn(extract, tasks, domain, at[1..], fails);
    }
  }

  lemma {:induction false} NobodyCutOff(
      extract: Extract, tasks: seq<Task>, domains: seq<string>, fails: (string, nat) -> bool)
    requires NoFailure(fails)
    ensures CutOff(extract, tasks, domains, fails) == 0
  {
    if domains != [] {
      var n := |domains| - 1;
      NobodyCutOff(extract, tasks, domains[..n], fails);
      ReachingIsBounded(extract, tasks, domains[n]);
      NobodyCutOffIn(extract, tasks, domains[n], TasksReaching(extract, tasks, domains[n]), fails);
    }
  }

  /** With no delivery failure, requests sent plus the optimized count equal the routable (task, recipient) pairs. */
  lemma RequestsWithoutFailure(extract: Extract, tasks: seq<Task>, fails: (string, nat) -> bool)
    requires NoFailure(fails)
    ensures var calls := AllCalls(extract, tasks, AllDomains(extract, tasks), fails);
            TotalPosts(calls) + TotalCounted(calls, fails) == Routable(extract, tasks)
  {
    RequestAccounting(extract, tasks, fails);
    NothingForgone(AllCalls(extract, tasks, AllDomains(extract, tasks), fails), fails);
    NobodyCutOff(extract, tasks, AllDomains(extract, tasks), fails);
  }
}

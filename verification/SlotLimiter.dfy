/**
 The per-domain concurrency limiter (fedify-sidecar/archive/legacy/delivery.js).

 A release and the wake-up it triggers are one step: the release runs in a timer callback, and the waiter it
 resolves resumes before any other callback of the event loop.
 */
module SlotLimiter {
  import opened Prelude

  /** One domain: requests holding a slot, and callers waiting for one. */
  datatype Slots = Slots(active: int, queue: seq<nat>)

  datatype Call = Call(domain: string, caller: nat)

  /** The limiter, its outstanding release timers, and the calls made and let through so far. */
  datatype World = World(
    domainQueues: map<string, Slots>, timers: multiset<string>, arrived: seq<Call>, admitted: seq<Call>)

  const Start: World := World(map[], multiset{}, [], [])

  datatype Event = Arrive(domain: string, caller: nat) | Release(domain: string)

  function SlotsOf(w: World, domain: string): Slots {
    if domain in w.domainQueues then w.domainQueues[domain] else Slots(0, [])
  }

  predicate Enabled(w: World, e: Event) {
    e.Release? ==> e.domain in w.timers && e.domain in w.domainQueues
  }

  /** A caller takes a slot and sets its release timer. */
  function Admit(w: World, domain: string, slots: Slots, caller: nat): World {
    w.(domainQueues := w.domainQueues[domain := slots.(active := slots.active + 1)],
       timers := w.timers + multiset{domain},
       admitted := w.admitted + [Call(domain, caller)])
  }

  function Step(max: int, w: World, e: Event): World
    requires Enabled(w, e)
  {
    match e
    case Arrive(domain, caller) =>
      var slots := SlotsOf(w, domain);
      var called := w.(arrived := w.arrived + [Call(domain, caller)]);
      if slots.active >= max then
        called.(domainQueues := w.domainQueues[domain := slots.(queue := slots.queue + [caller])])
      else Admit(called, domain, slots, caller)
    case Release(domain) =>
      var slots := SlotsOf(w, domain);
      var freed := Slots(slots.active - 1, slots.queue);
      var released := w.(timers := w.timers - multiset{domain});
      if slots.queue == [] then released.(domainQueues := w.domainQueues[domain := freed])
      else Admit(released, domain, freed.(queue := slots.queue[1..]), slots.queue[0])
  }

  ghost predicate Possible(max: int, w: World, events: seq<Event>)
    decreases events
  {
    events == [] || (Enabled(w, events[0]) && Possible(max, Step(max, w, events[0]), events[1..]))
  }

  ghost function Run(max: int, w: World, events: seq<Event>): World
    requires Possible(max, w, events)
    decreases events
  {
    if events == [] then w else Run(max, Step(max, w, events[0]), events[1..])
  }

  /** The object of the source. */
  class DeliveryService {
    const maxConcurrentPerDomain: int
    var domainQueues: map<string, Slots>
    var timers: multiset<string>
    ghost var arrived: seq<Call>
    ghost var admitted: seq<Call>

    ghost function View(): World
      reads this
    {
      World(domainQueues, timers, arrived, admitted)
    }

    constructor (maxConcurrentPerDomain: int)
      ensures this.maxConcurrentPerDomain == maxConcurrentPerDomain && View() == Start
    {
      this.maxConcurrentPerDomain := maxConcurrentPerDomain;
      domainQueues, timers, arrived, admitted := map[], multiset{}, [], [];
    }

    /** The part every caller runs once it holds a slot. */
    method TakeSlot(domain: string, caller: nat)
      requires domain in domainQueues
      modifies this
      ensures View() == Admit(old(View()), domain, old(domainQueues[domain]), caller)
    {
      var state := domainQueues[domain];
      domainQueues := domainQueues[domain := state.(active := state.active + 1)];
      timers := timers + multiset{domain};
      admitted := admitted + [Call(domain, caller)];
    }

    /** `waitForDomainSlot`: enters, or joins the queue. */
    method WaitForDomainSlot(domain: string, caller: nat) returns (entered: bool)
      modifies this
      ensures View() == Step(maxConcurrentPerDomain, old(View()), Arrive(domain, caller))
      ensures entered <==> SlotsOf(old(View()), domain).active < maxConcurrentPerDomain
    {
      arrived := arrived + [Call(domain, caller)];
      if domain !in domainQueues {
        domainQueues := domainQueues[domain := Slots(0, [])];
      }
      var state := domainQueues[domain];
      if state.active >= maxConcurrentPerDomain {
        domainQueues := domainQueues[domain := state.(queue := state.queue + [caller])];
        return false;
      }
      TakeSlot(domain, caller);
      entered := true;
    }

    /** A release timer fires, and the first waiter, if any, resumes. */
    method TimerFires(domain: string)
      requires domain in timers && domain in domainQueues
      modifies this
      ensures View() == Step(maxConcurrentPerDomain, old(View()), Release(domain))
    {
      timers := timers - multiset{domain};
      var state := domainQueues[domain];
      domainQueues := domainQueues[domain := state.(active := state.active - 1)];
      if |state.queue| > 0 {
        var next := state.queue[0];
        domainQueues := domainQueues[domain := Slots(state.active - 1, state.queue[1..])];
        TakeSlot(domain, next);
      }
    }
  }

  // ----- what every run keeps -----

  /** The callers of one domain, in order. */
  function For(calls: seq<Call>, domain: string): seq<nat> {
    if calls == [] then []
    else
      var last := calls[|calls| - 1];
      For(calls[..|calls| - 1], domain) + if last.domain == domain then [last.caller] else []
  }

  /** All that concerns one domain. */
  datatype Local = Local(active: int, queue: seq<nat>, timers: nat, arrived: seq<nat>, admitted: seq<nat>)

  ghost function Of(w: World, domain: string): Local {
    Local(SlotsOf(w, domain).active, SlotsOf(w, domain).queue, w.timers[domain], For(w.arrived, domain),
          For(w.admitted, domain))
  }

  function Entered(l: Local, caller: nat): Local {
    l.(active := l.active + 1, timers := l.timers + 1, admitted := l.admitted + [caller])
  }

  function ArriveLocal(max: int, l: Local, caller: nat): Local {
    var called := l.(arrived := l.arrived + [caller]);
    if l.active >= max then called.(queue := l.queue + [caller]) else Entered(called, caller)
  }

  function ReleaseLocal(l: Local): Local
    requires l.timers > 0
  {
    var released := l.(active := l.active - 1, timers := l.timers - 1);
    if l.queue == [] then released else Entered(released.(queue := l.queue[1..]), l.queue[0])
  }

  ghost predicate LocalInv(max: int, l: Local) {
    && 0 <= l.active <= max
    && l.active == l.timers
    && (l.queue != [] ==> l.active == max)
    && l.admitted + l.queue == l.arrived
  }

  ghost predicate DomainInv(max: int, w: World, domain: string) {
    LocalInv(max, Of(w, domain)) && (domain in w.timers ==> domain in w.domainQueues)
  }

  /** At most max active, one timer per active request, waiting only when full, and first come, first served. */
  ghost predicate Inv(max: int, w: World) {
    forall domain :: DomainInv(max, w, domain)
  }

  lemma ForAppended(calls: seq<Call>, c: Call, domain: string)
    ensures For(calls + [c], domain) == For(calls, domain) + if c.domain == domain then [c.caller] else []
  {
    assert (calls + [c])[..|calls|] == calls;
  }

  /** A step for one domain leaves every other domain as it was. */
  lemma OtherDomainsUntouched(max: int, w: World, e: Event, domain: string)
    requires Enabled(w, e) && domain != e.domain
    ensures Of(Step(max, w, e), domain) == Of(w, domain)
  {
    var slots := SlotsOf(w, e.domain);
    if e.Arrive? {
      ForAppended(w.arrived, Call(e.domain, e.caller), domain);
      ForAppended(w.admitted, Call(e.domain, e.caller), domain);
    } else if slots.queue != [] {
      ForAppended(w.admitted, Call(e.domain, slots.queue[0]), domain);
    }
  }

  lemma ArriveIs(max: int, w: World, domain: string, caller: nat)
    ensures Of(Step(max, w, Arrive(domain, caller)), domain) == ArriveLocal(max, Of(w, domain), caller)
  {
    var slots, c := SlotsOf(w, domain), Call(domain, caller);
    var next := Step(max, w, Arrive(domain, caller));
    ForAppended(w.arrived, c, domain);
    ForAppended(w.admitted, c, domain);
    hide For;
    assert next.arrived == w.arrived + [c];
    if slots.active < max {
      assert next.timers[domain] == w.timers[domain] + 1;
    }
  }

  lemma ReleaseIs(max: int, w: World, domain: string)
    requires Enabled(w, Release(domain))
    ensures Of(Step(max, w, Release(domain)), domain) == ReleaseLocal(Of(w, domain))
  {
    if SlotsOf(w, domain).queue != [] {
      ForAppended(w.admitted, Call(domain, SlotsOf(w, domain).queue[0]), domain);
    }
  }

  lemma ArriveKeeps(max: int, l: Local, caller: nat)
    requires LocalInv(max, l)
    ensures LocalInv(max, ArriveLocal(max, l, caller))
  {
    if l.active < max {
      assert l.admitted + [] == l.admitted;
      assert l.arrived + [caller] == (l.admitted + [caller]) + [];
    }
  }

  lemma ReleaseKeeps(max: int, l: Local)
    requires LocalInv(max, l) && l.timers > 0
    ensures LocalInv(max, ReleaseLocal(l))
  {
    if l.queue != [] {
      assert l.queue == [l.queue[0]] + l.queue[1..];
    }
  }

  lemma StepKeepsDomain(max: int, w: World, e: Event, domain: string)
    requires Enabled(w, e) && DomainInv(max, w, domain)
    ensures DomainInv(max, Step(max, w, e), domain)
  {
    hide LocalInv, Of, ArriveLocal, ReleaseLocal;
    if e.domain != domain {
      OtherDomainsUntouched(max, w, e, domain);
    } else if e.Arrive? {
      ArriveIs(max, w, domain, e.caller);
      ArriveKeeps(max, Of(w, domain), e.caller);
    } else {
      TimersAreCounted(w, domain);
      ReleaseIs(max, w, domain);
      ReleaseKeeps(max, Of(w, domain));
    }
  }

  lemma TimersAreCounted(w: World, domain: string)
    ensures Of(w, domain).timers > 0 <==> domain in w.timers
  {
  }

  lemma StepKeepsInv(max: int, w: World, e: Event)
    requires Enabled(w, e) && Inv(max, w)
    ensures Inv(max, Step(max, w, e))
  {
    hide DomainInv;
    forall domain ensures DomainInv(max, Step(max, w, e), domain) {
      StepKeepsDomain(max, w, e, domain);
    }
  }

  lemma {:induction false} RunKeepsInv(max: int, w: World, events: seq<Event>)
    requires max >= 1 && Inv(max, w) && Possible(max, w, events)
    ensures Inv(max, Run(max, w, events))
    decreases events
  {
    hide Inv, Step;
    if events != [] {
      StepKeepsInv(max, w, events[0]);
      RunKeepsInv(max, Step(max, w, events[0]), events[1..]);
    }
  }

  lemma StartKeeps(max: int)
    requires max >= 1
    ensures Inv(max, Start)
  {
  }

  /**
   With room for one or more, in every run and for every domain: never more than max requests hold a slot, one
   release timer is outstanding per slot held, callers enter in the order they came, and callers wait only while
   all slots are held.
   */
  lemma EveryRunIsFair(max: int, events: seq<Event>)
    requires max >= 1 && Possible(max, Start, events)
    ensures Inv(max, Run(max, Start, events))
  {
    StartKeeps(max);
    RunKeepsInv(max, Start, events);
  }

  function Releases(events: seq<Event>, domain: string): nat {
    if events == [] then 0
    else (if events[0] == Release(domain) then 1 else 0) + Releases(events[1..], domain)
  }

  lemma AdmittedGrows(max: int, w: World, e: Event, domain: string)
    requires Enabled(w, e)
    ensures Of(w, domain).admitted <= Of(Step(max, w, e), domain).admitted
  {
    hide Of;
    if e.domain != domain {
      OtherDomainsUntouched(max, w, e, domain);
    } else if e.Arrive? {
      ArriveIs(max, w, domain, e.caller);
    } else {
      TimersAreCounted(w, domain);
      ReleaseIs(max, w, domain);
    }
  }

  lemma {:induction false} AdmittedStays(max: int, w: World, events: seq<Event>, domain: string)
    requires Possible(max, w, events)
    ensures Of(w, domain).admitted <= Of(Run(max, w, events), domain).admitted
    decreases events
  {
    hide Of, Step;
    if events != [] {
      AdmittedGrows(max, w, events[0], domain);
      AdmittedStays(max, Step(max, w, events[0]), events[1..], domain);
    }
  }

  lemma StepMovesWaiter(max: int, w: World, e: Event, domain: string)
    requires Enabled(w, e) && DomainInv(max, w, domain) && Of(w, domain).queue != []
    ensures var before, after := Of(w, domain), Of(Step(max, w, e), domain);
            if e == Release(domain)
            then after.queue == before.queue[1..] && after.admitted == before.admitted + [before.queue[0]]
            else before.queue <= after.queue && after.admitted == before.admitted
  {
    hide Of;
    if e.domain != domain {
      OtherDomainsUntouched(max, w, e, domain);
    } else if e.Arrive? {
      ArriveIs(max, w, domain, e.caller);
    } else {
      TimersAreCounted(w, domain);
      ReleaseIs(max, w, domain);
    }
  }

  /**
   No wake-up is lost: a caller waiting at position k has entered once k + 1 of its domain's slots were released,
   whatever else happens meanwhile, and it enters as the (k + 1)-th caller from now.
   */
  lemma {:induction false} WaiterEnters(max: int, w: World, events: seq<Event>, domain: string, k: nat)
    requires max >= 1 && Inv(max, w) && Possible(max, w, events)
    requires k < |Of(w, domain).queue| && Releases(events, domain) > k
    ensures var entered := Of(Run(max, w, events), domain).admitted;
            var n := |Of(w, domain).admitted| + k;
            n < |entered| && entered[n] == Of(w, domain).queue[k]
    decreases events
  {
    hide Of, Step, LocalInv;
    var next := Step(max, w, events[0]);
    assert DomainInv(max, w, domain);
    StepKeepsInv(max, w, events[0]);
    StepMovesWaiter(max, w, events[0], domain);
    if events[0] != Release(domain) {
      WaiterEnters(max, next, events[1..], domain, k);
    } else if k == 0 {
      AdmittedStays(max, next, events[1..], domain);
    } else {
      WaiterEnters(max, next, events[1..], domain, k - 1);
    }
  }

  /** With no room at all nobody ever enters, and nothing ever wakes a waiter. */
  lemma {:induction false} NobodyEntersWithoutRoom(max: int, events: seq<Event>, w: World)
    requires max <= 0 && Possible(max, w, events)
    requires w.timers == multiset{} && w.admitted == [] && forall d :: SlotsOf(w, d).active >= 0
    ensures Run(max, w, events).admitted == [] && Run(max, w, events).timers == multiset{}
    decreases events
  {
    if events != [] {
      var next := Step(max, w, events[0]);
      assert events[0].Arrive?;
      assert SlotsOf(w, events[0].domain).active >= 0;
      forall d ensures SlotsOf(next, d).active >= 0 {
        assert SlotsOf(w, d).active >= 0;
      }
      NobodyEntersWithoutRoom(max, events[1..], next);
    }
  }
}

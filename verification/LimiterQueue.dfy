/** The ticket queue of the limiter over whole runs: order, ownership, fairness and bounded waiting. */
module LimiterQueue {
  import opened RateLimiting
  import opened LimiterRuns
  import opened Board

  ghost predicate Increasing(waiting: seq<nat>) {
    forall i, j :: 0 <= i < j < |waiting| ==> waiting[i] < waiting[j]
  }

  /** Every ticket belongs to one caller, and every waiting ticket to a caller that is still inside its call. */
  ghost predicate Owned(l: Limiter, callers: seq<Caller>) {
    (forall i :: 0 <= i < |callers| && callers[i].Holds() ==> callers[i].ticket < l.nextTicket) &&
    (forall i, j :: 0 <= i < j < |callers| && callers[i].Holds() && callers[j].Holds() ==>
     callers[i].ticket != callers[j].ticket) &&
    (forall i :: 0 <= i < |callers| && callers[i].Waits() ==> callers[i].ticket in l.waiting) &&
    (forall t :: t in l.waiting ==> t < l.nextTicket && HeldBySome(callers, t)) &&
    (forall i :: 0 <= i < |callers| && callers[i].Finishing? && callers[i].granted ==> callers[i].ticket !in l.waiting)
  }

  ghost predicate HeldBySome(callers: seq<Caller>, t: nat) {
    exists i :: 0 <= i < |callers| && callers[i].Holds() && callers[i].ticket == t
  }

  function AtMostDepth(limits: Limits): nat {
    if limits.maxDepth < 0 then 0 else limits.maxDepth
  }

  /** Granted tickets come in increasing order and precede every ticket still waiting. */
  ghost predicate GrantedInOrder(l: Limiter, log: seq<Grant>) {
    (forall i, j :: 0 <= i < j < |log| && log[i].ticket.Some? && log[j].ticket.Some? ==>
     log[i].ticket.value < log[j].ticket.value) &&
    (forall i :: 0 <= i < |log| && log[i].ticket.Some? ==> log[i].ticket.value < l.nextTicket) &&
    (forall i, t :: 0 <= i < |log| && log[i].ticket.Some? && t in l.waiting ==> log[i].ticket.value < t)
  }

  ghost predicate QueueKept(limits: Limits, w: World) {
    Increasing(w.limiter.waiting) && |w.limiter.waiting| <= AtMostDepth(limits) &&
    Owned(w.limiter, w.callers) && GrantedInOrder(w.limiter, w.log)
  }

  lemma HeadIsLeast(waiting: seq<nat>)
    requires Increasing(waiting) && waiting != []
    ensures Increasing(waiting[1..]) && forall t :: t in waiting[1..] ==> waiting[0] < t
  {
    forall t | t in waiting[1..]
      ensures waiting[0] < t
    {
      var i :| 0 <= i < |waiting| - 1 && waiting[1..][i] == t;
      assert waiting[i + 1] == t;
    }
  }

  lemma LeastInFront(head: nat, rest: seq<nat>)
    requires Increasing(rest) && forall t :: t in rest ==> head < t
    ensures Increasing([head] + rest)
  {
    forall i | 0 <= i < |rest|
      ensures head < rest[i]
    {
      assert rest[i] in rest;
    }
  }

  lemma InFront(head: nat, rest: seq<nat>, t: nat)
    ensures t in [head] + rest <==> t == head || t in rest
  {
  }

  lemma {:induction false} WithoutExact(waiting: seq<nat>, ticket: nat)
    requires Increasing(waiting)
    ensures Increasing(Without(waiting, ticket)) && |Without(waiting, ticket)| <= |waiting|
    ensures forall t :: t in Without(waiting, ticket) <==> t in waiting && t != ticket
  {
    hide Increasing;
    if waiting != [] {
      var head, rest := waiting[0], waiting[1..];
      assert waiting == [head] + rest;
      HeadIsLeast(waiting);
      if head != ticket {
        WithoutExact(rest, ticket);
        LeastInFront(head, Without(rest, ticket));
      }
      forall t
        ensures t in Without(waiting, ticket) <==> t in waiting && t != ticket
      {
        InFront(head, rest, t);
        InFront(head, Without(rest, ticket), t);
      }
    } else {
      EmptyIncreases();
    }
  }

  lemma EmptyIncreases()
    ensures Increasing([])
  {
  }

  // ----- what each step does to the queue -----

  /** Popping the head of the queue is removing it. */
  lemma PopIsWithout(waiting: seq<nat>)
    requires waiting != []
    ensures waiting[1..] == Without(waiting, waiting[0])
  {
  }

  /** The queue after a step: unchanged, one fresh ticket at the end, or the caller's own ticket removed. */
  ghost predicate QueueStep(w: World, c: Choice, after: World)
    requires Possible(w, c)
  {
    var pc := w.callers[c.caller];
    || (after.limiter.waiting == w.limiter.waiting && after.limiter.nextTicket == w.limiter.nextTicket)
    || (pc.Outside? && after.limiter.waiting == w.limiter.waiting + [w.limiter.nextTicket] &&
        after.limiter.nextTicket == w.limiter.nextTicket + 1)
    || (pc.Holds() && after.limiter.waiting == Without(w.limiter.waiting, pc.ticket) &&
        after.limiter.nextTicket == w.limiter.nextTicket)
  }

  /** Each call removes no ticket but its own. */
  lemma OnlyOwnTicketLeaves(limits: Limits, w: World, c: Choice)
    requires Possible(w, c)
    ensures QueueStep(w, c, Next(limits, w, c))
  {
    hide Pruned;
    if w.limiter.waiting != [] {
      PopIsWithout(w.limiter.waiting);
    }
  }

  /** A newcomer is granted only when nobody waits; a queued caller only when every earlier ticket has left. */
  lemma GrantsAreFair(limits: Limits, w: World, c: Choice)
    requires Possible(w, c) && QueueKept(limits, w)
    ensures var after := Next(limits, w, c);
            after.log == w.log ||
            (after.log == w.log + [Grant(c.now, None)] && w.limiter.waiting == []) ||
            (w.callers[c.caller].Sleeping? && after.log == w.log + [Grant(c.now, Some(w.callers[c.caller].ticket))] &&
             w.callers[c.caller].ticket in w.limiter.waiting &&
             forall t :: t in w.limiter.waiting ==> w.callers[c.caller].ticket <= t)
  {
    hide Pruned;
    var waiting := w.limiter.waiting;
    forall t | t in waiting
      ensures waiting[0] <= t
    {
      var i :| 0 <= i < |waiting| && waiting[i] == t;
    }
  }

  // ----- the queue invariant -----

  lemma QueueSizes(limits: Limits, w: World, c: Choice)
    requires Possible(w, c) && QueueKept(limits, w)
    ensures var after := Next(limits, w, c).limiter;
            Increasing(after.waiting) && |after.waiting| <= AtMostDepth(limits)
  {
    hide TryGrant, Owned, GrantedInOrder;
    var l := w.limiter;
    if w.callers[c.caller].Holds() {
      WithoutExact(l.waiting, w.callers[c.caller].ticket);
    }
    if l.waiting != [] {
      PopIsWithout(l.waiting);
    }
    NewTicketLast(l, w.callers);
    TryGrantKeepsQueue(limits, l, c.now);
  }

  lemma TryGrantKeepsQueue(limits: Limits, l: Limiter, now: real)
    ensures TryGrant(limits, l, now).0.waiting == l.waiting && TryGrant(limits, l, now).0.nextTicket == l.nextTicket
  {
  }

  lemma NewTicketLast(l: Limiter, callers: seq<Caller>)
    ensures Increasing(l.waiting) && Owned(l, callers) ==> Increasing(l.waiting + [l.nextTicket])
  {
    if Increasing(l.waiting) && Owned(l, callers) {
      forall i | 0 <= i < |l.waiting|
        ensures l.waiting[i] < l.nextTicket
      {
        assert l.waiting[i] in l.waiting;
      }
    }
  }

  /** The caller's program counter after its step, as far as its ticket is concerned. */
  ghost predicate CallerStep(w: World, c: Choice, after: World)
    requires Possible(w, c)
  {
    var pc := w.callers[c.caller];
    |after.callers| == |w.callers| && after.callers == w.callers[c.caller := after.callers[c.caller]] &&
    var next := after.callers[c.caller];
    if after.limiter.nextTicket != w.limiter.nextTicket then
      pc.Outside? && next == Queued(w.limiter.nextTicket) &&
        after.limiter.waiting == w.limiter.waiting + [w.limiter.nextTicket]
    else if pc.Outside? then next.Outside? && after.limiter.waiting == w.limiter.waiting
    else if pc.Finishing? then next.Outside? && after.limiter.waiting == Without(w.limiter.waiting, pc.ticket)
    else
      next.Holds() && next.ticket == pc.ticket &&
      (if next == Finishing(pc.ticket, true) then after.limiter.waiting == Without(w.limiter.waiting, pc.ticket)
       else after.limiter.waiting == w.limiter.waiting && (next.Waits() || next == Finishing(pc.ticket, false)))
  }

  lemma NextIsCallerStep(limits: Limits, w: World, c: Choice)
    requires Possible(w, c)
    ensures CallerStep(w, c, Next(limits, w, c))
    ensures Next(limits, w, c).limiter.nextTicket >= w.limiter.nextTicket
  {
    hide TryGrant;
    TryGrantKeepsQueue(limits, w.limiter, c.now);
    if w.limiter.waiting != [] {
      PopIsWithout(w.limiter.waiting);
    }
  }

  lemma StepHoldsTickets(w: World, c: Choice, after: World)
    requires Possible(w, c) && CallerStep(w, c, after) && after.limiter.nextTicket >= w.limiter.nextTicket
    requires Increasing(w.limiter.waiting) && Owned(w.limiter, w.callers)
    ensures forall t :: t in after.limiter.waiting ==> t < after.limiter.nextTicket && HeldBySome(after.callers, t)
  {
    var pc := w.callers[c.caller];
    if pc.Holds() {
      WithoutExact(w.limiter.waiting, pc.ticket);
    }
    forall t | t in after.limiter.waiting
      ensures t < after.limiter.nextTicket && HeldBySome(after.callers, t)
    {
      if t in w.limiter.waiting {
        var i :| 0 <= i < |w.callers| && w.callers[i].Holds() && w.callers[i].ticket == t;
        assert i != c.caller ==> after.callers[i] == w.callers[i];
        assert after.callers[i].Holds() && after.callers[i].ticket == t;
      } else {
        assert after.callers[c.caller].ticket == t;
      }
    }
  }

  lemma StepKeepsOwned(w: World, c: Choice, after: World)
    requires Possible(w, c) && CallerStep(w, c, after) && after.limiter.nextTicket >= w.limiter.nextTicket
    requires Increasing(w.limiter.waiting) && Owned(w.limiter, w.callers)
    ensures Owned(after.limiter, after.callers)
  {
    hide HeldBySome;
    StepHoldsTickets(w, c, after);
    var pc := w.callers[c.caller];
    if pc.Holds() {
      WithoutExact(w.limiter.waiting, pc.ticket);
    }
  }

  lemma StepKeepsOrder(limits: Limits, w: World, c: Choice)
    requires Possible(w, c) && QueueKept(limits, w)
    ensures GrantedInOrder(Next(limits, w, c).limiter, Next(limits, w, c).log)
  {
    hide Next, HeldBySome;
    var after := Next(limits, w, c);
    GrantsAreFair(limits, w, c);
    NextIsCallerStep(limits, w, c);
    if w.callers[c.caller].Holds() {
      WithoutExact(w.limiter.waiting, w.callers[c.caller].ticket);
    }
    GrantLeavesQueue(limits, w, c);
  }

  lemma GrantLeavesQueue(limits: Limits, w: World, c: Choice)
    requires Possible(w, c)
    ensures var after := Next(limits, w, c);
            after.log == w.log || after.callers[c.caller].Outside? ||
            after.callers[c.caller] == Finishing(w.callers[c.caller].ticket, true)
  {
    hide TryGrant;
  }

  lemma NextKeepsQueue(limits: Limits, w: World, c: Choice)
    requires Possible(w, c) && QueueKept(limits, w)
    ensures QueueKept(limits, Next(limits, w, c))
  {
    hide Next, Owned, GrantedInOrder, Increasing, CallerStep;
    QueueSizes(limits, w, c);
    NextIsCallerStep(limits, w, c);
    StepKeepsOwned(w, c, Next(limits, w, c));
    StepKeepsOrder(limits, w, c);
  }

  /** In every run waiting tickets increase, stay within the depth, belong to live calls, and are granted in order. */
  lemma {:induction false} EveryRunQueued(limits: Limits, worlds: seq<World>, choices: seq<Choice>)
    requires IsRun(limits, worlds, choices)
    ensures QueueKept(limits, worlds[|choices|])
    decreases |choices|
  {
    hide Next;
    if choices != [] {
      var k := |choices| - 1;
      RunPrefix(limits, worlds, choices);
      EveryRunQueued(limits, worlds[..k + 1], choices[..k]);
      NextKeepsQueue(limits, worlds[k], choices[k]);
    }
  }

  // ----- bounded waiting -----

  /** Every sleep lasts at least the drain interval. */
  ghost predicate SleepsFully(limits: Limits, w: World, c: Choice)
    requires Possible(w, c)
  {
    var pc := w.callers[c.caller];
    pc.Sleeping? ==> c.now >= pc.since + limits.drainInterval
  }

  function Slept(limits: Limits, sleeps: nat): real {
    sleeps as real * limits.drainInterval
  }

  lemma OneMoreSleep(limits: Limits, k: nat)
    ensures Slept(limits, k + 1) == Slept(limits, k) + limits.drainInterval && Slept(limits, 0) == 0.0
  {
    assert (k + 1) as real == k as real + 1.0;
  }

  /** Each completed sleep has used up one drain interval of the caller's timeout. */
  ghost predicate SleepsCounted(limits: Limits, w: World) {
    forall i :: 0 <= i < |w.callers| ==>
      (w.callers[i].Testing? ==>
       w.clock >= w.callers[i].deadline - limits.timeout + Slept(limits, w.callers[i].sleeps)) &&
      (w.callers[i].Sleeping? ==>
         w.callers[i].since >= w.callers[i].deadline - limits.timeout + Slept(limits, w.callers[i].sleeps) &&
         w.callers[i].since < w.callers[i].deadline)
  }

  lemma NextCountsSleeps(limits: Limits, w: World, c: Choice)
    requires Possible(w, c) && SleepsFully(limits, w, c) && SleepsCounted(limits, w)
    ensures SleepsCounted(limits, Next(limits, w, c))
  {
    hide Enter, Poll, Slept;
    var pc := w.callers[c.caller];
    OneMoreSleep(limits, if pc.Sleeping? then pc.sleeps else 0);
  }

  lemma {:induction false} EveryRunCountsSleeps(limits: Limits, worlds: seq<World>, choices: seq<Choice>)
    requires IsRun(limits, worlds, choices)
    requires forall i :: 0 <= i < |choices| ==> SleepsFully(limits, worlds[i], choices[i])
    ensures SleepsCounted(limits, worlds[|choices|])
    decreases |choices|
  {
    hide Next, Slept;
    if choices != [] {
      var k := |choices| - 1;
      RunPrefix(limits, worlds, choices);
      EveryRunCountsSleeps(limits, worlds[..k + 1], choices[..k]);
      NextCountsSleeps(limits, worlds[k], choices[k]);
    }
  }

  lemma {:induction false} SleptMonotone(limits: Limits, a: nat, b: nat)
    requires limits.drainInterval > 0.0 && a <= b
    ensures Slept(limits, a) <= Slept(limits, b)
    decreases b - a
  {
    hide Slept;
    if a < b {
      OneMoreSleep(limits, b - 1);
      SleptMonotone(limits, a, b - 1);
    }
  }

  /** No caller ever starts a sleep beyond the number of drain intervals that cover its timeout. */
  lemma WaitIsBounded(limits: Limits, worlds: seq<World>, choices: seq<Choice>, bound: nat, i: nat)
    requires IsRun(limits, worlds, choices) && limits.drainInterval > 0.0
    requires forall k :: 0 <= k < |choices| ==> SleepsFully(limits, worlds[k], choices[k])
    requires limits.timeout <= Slept(limits, bound)
    requires i < |worlds[|choices|].callers| && worlds[|choices|].callers[i].Sleeping?
    ensures worlds[|choices|].callers[i].sleeps + 1 <= bound
  {
    hide Next, Slept;
    EveryRunCountsSleeps(limits, worlds, choices);
    var sleeps := worlds[|choices|].callers[i].sleeps;
    if sleeps >= bound {
      SleptMonotone(limits, bound, sleeps);
    }
  }
}

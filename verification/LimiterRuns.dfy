/** Any number of callers interleaving the limiter's locked sections under a clock that never goes back. */
module LimiterRuns {
  import opened RateLimiting
  import opened Board

  /** Where one caller is inside its call; the deadline is fixed outside the lock, and sleeps are counted. */
  datatype Caller =
    | Outside
    | Queued(ticket: nat)
    | Testing(ticket: nat, deadline: real, sleeps: nat)
    | Sleeping(ticket: nat, deadline: real, sleeps: nat, since: real)
    | Finishing(ticket: nat, granted: bool)
  {
    predicate Holds() { !Outside? }
    /** The call is in the queue and has neither been granted nor given up. */
    predicate Waits() { Queued? || Testing? || Sleeping? }
  }

  /** One grant: when, and which ticket (None for a newcomer that never queued). */
  datatype Grant = Grant(time: real, ticket: Option<nat>)

  /** The complete log is never pruned; no caller can see it. */
  datatype World = World(limiter: Limiter, callers: seq<Caller>, clock: real, log: seq<Grant>)

  /** Which caller runs, the clock it reads, and whether its wait is interrupted by an exception. */
  datatype Choice = Choice(caller: nat, now: real, interrupted: bool)

  predicate Possible(w: World, c: Choice) {
    c.caller < |w.callers| && w.clock <= c.now
  }

  function Move(w: World, c: Choice, limiter: Limiter, pc: Caller, grant: seq<Grant>): World
    requires Possible(w, c)
  {
    World(limiter, w.callers[c.caller := pc], c.now, w.log + grant)
  }

  /** One atomic step of one caller. */
  function Next(limits: Limits, w: World, c: Choice): World
    requires Possible(w, c)
  {
    match w.callers[c.caller]
    case Outside =>
      var (l, entry) := Enter(limits, w.limiter, c.now);
      (match entry
       case Admitted => Move(w, c, l, Outside, [Grant(c.now, None)])
       case QueueFull => Move(w, c, l, Outside, [])
       case Ticket(t) => Move(w, c, l, Queued(t), []))
    case Queued(t) =>
      if c.interrupted then Move(w, c, w.limiter, Finishing(t, false), [])
      else Move(w, c, w.limiter, Testing(t, c.now + limits.timeout, 0), [])
    case Testing(t, deadline, k) =>
      if c.interrupted || c.now >= deadline then Move(w, c, w.limiter, Finishing(t, false), [])
      else Move(w, c, w.limiter, Sleeping(t, deadline, k, c.now), [])
    case Sleeping(t, deadline, k, since) =>
      if c.interrupted then Move(w, c, w.limiter, Finishing(t, false), [])
      else
        var (l, granted) := Poll(limits, w.limiter, t, c.now);
        if granted then Move(w, c, l, Finishing(t, true), [Grant(c.now, Some(t))])
        else Move(w, c, l, Testing(t, deadline, k + 1), [])
    case Finishing(t, _) => Move(w, c, Leave(w.limiter, t), Outside, [])
  }

  predicate Fresh(w: World) {
    w.limiter == Limiter([], [], 0) && w.log == [] && forall i :: 0 <= i < |w.callers| ==> w.callers[i] == Outside
  }

  /** A finite run: a fresh limiter and one possible step after another. */
  ghost predicate IsRun(limits: Limits, worlds: seq<World>, choices: seq<Choice>) {
    |worlds| == |choices| + 1 && Fresh(worlds[0]) &&
    forall i :: 0 <= i < |choices| ==>
      Possible(worlds[i], choices[i]) && worlds[i + 1] == Next(limits, worlds[i], choices[i])
  }

  // ----- the window over the complete log -----

  function Times(log: seq<Grant>): seq<real> {
    seq(|log|, i requires 0 <= i < |log| => log[i].time)
  }

  ghost predicate Sorted(times: seq<real>) {
    forall i, j :: 0 <= i <= j < |times| ==> times[i] <= times[j]
  }

  /** No rpm + 1 grants ever fall into one window of sixty seconds. */
  ghost predicate Spaced(rpm: int, times: seq<real>) {
    (rpm <= 0 ==> times == []) &&
    forall i, j :: 0 <= i < j < |times| && j - i >= rpm ==> times[j] - times[i] >= 60.0
  }

  /** How many grants of the complete log are less than sixty seconds old. */
  function Recent(times: seq<real>, now: real): nat {
    if times == [] then 0
    else Recent(times[1..], now) + if now - times[0] < 60.0 then 1 else 0
  }

  /** The deque is the complete log minus grants that have left the window for good. */
  ghost predicate Window(rpm: int, grants: seq<real>, times: seq<real>, clock: real) {
    Sorted(times) && Spaced(rpm, times) && (times != [] ==> times[|times| - 1] <= clock) &&
    |grants| <= |times| && grants == times[|times| - |grants|..] &&
    (forall i :: 0 <= i < |times| - |grants| ==> clock - times[i] >= WINDOW_SECONDS) &&
    (|grants| <= rpm || grants == [])
  }

  lemma {:induction false} PrunedIsSuffix(grants: seq<real>, now: real)
    ensures var kept := Pruned(grants, now);
            |kept| <= |grants| && kept == grants[|grants| - |kept|..] &&
            (forall i :: 0 <= i < |grants| - |kept| ==> now - grants[i] >= WINDOW_SECONDS) &&
            (kept != [] ==> now - kept[0] < WINDOW_SECONDS)
  {
    if grants != [] && now - grants[0] >= WINDOW_SECONDS {
      PrunedIsSuffix(grants[1..], now);
    }
  }

  lemma PruneWindow(rpm: int, grants: seq<real>, times: seq<real>, clock: real, now: real)
    requires Window(rpm, grants, times, clock) && clock <= now
    ensures Window(rpm, Pruned(grants, now), times, now)
  {
    PrunedIsSuffix(grants, now);
    var kept := Pruned(grants, now);
    var first := |times| - |grants|;
    forall i | 0 <= i < |times| - |kept|
      ensures now - times[i] >= WINDOW_SECONDS
    {
      if i >= first {
        assert times[i] == grants[i - first];
      }
    }
  }

  lemma GrantWindow(rpm: int, kept: seq<real>, times: seq<real>, now: real)
    requires Window(rpm, kept, times, now) && |kept| < rpm
    ensures Window(rpm, kept + [now], times + [now], now)
  {
    var longer := times + [now];
    forall i, j | 0 <= i < j < |longer| && j - i >= rpm
      ensures longer[j] - longer[i] >= WINDOW_SECONDS
    {
      if j == |times| {
        assert i < |times| - |kept|;
      }
    }
  }

  /** On a sorted log, what pruning keeps is exactly what is still in the window. */
  lemma {:induction false} RecentIsPruned(times: seq<real>, now: real)
    requires Sorted(times)
    ensures Recent(times, now) == |Pruned(times, now)|
  {
    if times != [] {
      RecentIsPruned(times[1..], now);
      if now - times[0] < WINDOW_SECONDS {
        if times[1..] != [] {
          AllRecent(times[1..], now);
        }
      }
    }
  }

  lemma {:induction false} AllRecent(times: seq<real>, now: real)
    requires Sorted(times) && times != [] && now - times[0] < WINDOW_SECONDS
    ensures Pruned(times, now) == times
  {
  }

  lemma {:induction false} PrunedSkips(times: seq<real>, k: nat, now: real)
    requires k <= |times| && forall i :: 0 <= i < k ==> now - times[i] >= WINDOW_SECONDS
    ensures Pruned(times, now) == Pruned(times[k..], now)
  {
    if k > 0 {
      assert times[1..][k - 1..] == times[k..];
      PrunedSkips(times[1..], k - 1, now);
    }
  }

  /** Pruning the short deque decides exactly as counting over the complete log would. */
  lemma WindowDecidesExactly(limits: Limits, l: Limiter, times: seq<real>, clock: real, now: real)
    requires Window(limits.rpm, l.grants, times, clock) && clock <= now
    ensures TryGrant(limits, l, now).1 <==> Recent(times, now) < limits.rpm
  {
    hide Spaced, Recent, Pruned;
    PrunedSkips(times, |times| - |l.grants|, now);
    RecentIsPruned(times, now);
  }

  lemma TryGrantWindow(limits: Limits, l: Limiter, times: seq<real>, clock: real, now: real)
    requires Window(limits.rpm, l.grants, times, clock) && clock <= now
    ensures var (tried, granted) := TryGrant(limits, l, now);
            Window(limits.rpm, tried.grants, if granted then times + [now] else times, now)
  {
    hide Window, Pruned;
    PruneWindow(limits.rpm, l.grants, times, clock, now);
    if TryGrant(limits, l, now).1 {
      GrantWindow(limits.rpm, Pruned(l.grants, now), times, now);
    }
  }

  lemma LaterWindow(rpm: int, grants: seq<real>, times: seq<real>, clock: real, now: real)
    requires Window(rpm, grants, times, clock) && clock <= now
    ensures Window(rpm, grants, times, now)
  {
  }

  ghost predicate WindowKept(limits: Limits, w: World) {
    Window(limits.rpm, w.limiter.grants, Times(w.log), w.clock)
  }

  /** A step either leaves the grants alone or tries for one and logs it when it succeeds. */
  ghost predicate Tries(limits: Limits, w: World, now: real, after: World) {
    var (tried, granted) := TryGrant(limits, w.limiter, now);
    after.clock == now &&
    if granted && |after.log| == |w.log| + 1 then
      after.limiter.grants == tried.grants && after.log[..|w.log|] == w.log && after.log[|w.log|].time == now
    else
      after.log == w.log &&
      (after.limiter.grants == w.limiter.grants || (!granted && after.limiter.grants == tried.grants))
  }

  lemma NextTries(limits: Limits, w: World, c: Choice)
    requires Possible(w, c)
    ensures Tries(limits, w, c.now, Next(limits, w, c))
  {
    hide TryGrant;
  }

  lemma TimesGrow(log: seq<Grant>, longer: seq<Grant>)
    requires |longer| == |log| + 1 && longer[..|log|] == log
    ensures Times(longer) == Times(log) + [longer[|log|].time]
  {
    assert forall i :: 0 <= i < |log| ==> longer[i] == log[i];
  }

  /** For every interleaving and every clock that never goes back, grants rpm apart are a window apart. */
  lemma {:induction false} EveryRunSpaced(limits: Limits, worlds: seq<World>, choices: seq<Choice>)
    requires IsRun(limits, worlds, choices)
    ensures WindowKept(limits, worlds[|choices|])
    ensures Spaced(limits.rpm, Times(worlds[|choices|].log))
    decreases |choices|
  {
    hide Next, Window, TryGrant, Times;
    if choices == [] {
      FreshWindow(limits, worlds[0]);
    } else {
      var k := |choices| - 1;
      RunPrefix(limits, worlds, choices);
      EveryRunSpaced(limits, worlds[..k + 1], choices[..k]);
      var w, now := worlds[k], choices[k].now;
      NextTries(limits, w, choices[k]);
      TryGrantWindow(limits, w.limiter, Times(w.log), w.clock, now);
      LaterWindow(limits.rpm, w.limiter.grants, Times(w.log), w.clock, now);
      if |worlds[k + 1].log| == |w.log| + 1 {
        TimesGrow(w.log, worlds[k + 1].log);
      }
    }
    WindowSpaced(limits, worlds[|choices|]);
  }

  lemma FreshWindow(limits: Limits, w: World)
    requires Fresh(w)
    ensures WindowKept(limits, w)
  {
  }

  lemma WindowSpaced(limits: Limits, w: World)
    requires WindowKept(limits, w)
    ensures Spaced(limits.rpm, Times(w.log))
  {
  }

  lemma RunPrefix(limits: Limits, worlds: seq<World>, choices: seq<Choice>)
    requires IsRun(limits, worlds, choices) && choices != []
    ensures IsRun(limits, worlds[..|choices|], choices[..|choices| - 1])
  {
    hide Next;
  }

  /** A limiter refuses a head-of-queue or first-come request only when the window really is full. */
  lemma RefusedOnlyWhenFull(limits: Limits, worlds: seq<World>, choices: seq<Choice>, now: real)
    requires IsRun(limits, worlds, choices) && worlds[|choices|].clock <= now
    ensures var w := worlds[|choices|];
            TryGrant(limits, w.limiter, now).1 <==> Recent(Times(w.log), now) < limits.rpm
  {
    hide Next, Window;
    EveryRunSpaced(limits, worlds, choices);
    var w := worlds[|choices|];
    WindowDecidesExactly(limits, w.limiter, Times(w.log), w.clock, now);
  }

  // ----- what each locked section decides, told by the complete log -----

  lemma RunWindow(limits: Limits, worlds: seq<World>, choices: seq<Choice>, c: Choice)
    requires IsRun(limits, worlds, choices) && Possible(worlds[|choices|], c)
    ensures var w := worlds[|choices|];
            |Pruned(w.limiter.grants, c.now)| < limits.rpm <==> Recent(Times(w.log), c.now) < limits.rpm
  {
    hide Next, Window;
    RefusedOnlyWhenFull(limits, worlds, choices, c.now);
  }

  /**
   * A newcomer is admitted at once exactly when nobody waits and the last window of the complete log has room;
   * otherwise it is turned away when the queue is at its depth, and queues up last with a new ticket when it is not.
   */
  lemma NewcomerDecided(limits: Limits, worlds: seq<World>, choices: seq<Choice>, c: Choice)
    requires IsRun(limits, worlds, choices) && Possible(worlds[|choices|], c)
    requires worlds[|choices|].callers[c.caller].Outside?
    ensures var w := worlds[|choices|];
            var after, waiting, ticket := Next(limits, w, c), w.limiter.waiting, w.limiter.nextTicket;
            if waiting == [] && Recent(Times(w.log), c.now) < limits.rpm then
              after.log == w.log + [Grant(c.now, None)] && after.callers == w.callers && after.limiter.waiting == []
            else if |waiting| >= limits.maxDepth then
              after.log == w.log && after.callers == w.callers && after.limiter.waiting == waiting
            else
              after.log == w.log && after.callers == w.callers[c.caller := Queued(ticket)] &&
              after.limiter.waiting == waiting + [ticket] && after.limiter.nextTicket == ticket + 1
  {
    hide Pruned, Recent, Times, IsRun;
    RunWindow(limits, worlds, choices, c);
  }

  /**
   * After a sleep that nothing interrupts, a queued caller is granted a slot exactly when its ticket heads the queue
   * and the last window of the complete log has room; otherwise it stays in the queue and looks at its deadline again.
   */
  lemma SleeperDecided(limits: Limits, worlds: seq<World>, choices: seq<Choice>, c: Choice)
    requires IsRun(limits, worlds, choices) && Possible(worlds[|choices|], c)
    requires worlds[|choices|].callers[c.caller].Sleeping? && !c.interrupted
    ensures var w := worlds[|choices|];
            var after, pc, waiting := Next(limits, w, c), w.callers[c.caller], w.limiter.waiting;
            if waiting != [] && waiting[0] == pc.ticket && Recent(Times(w.log), c.now) < limits.rpm then
              after.log == w.log + [Grant(c.now, Some(pc.ticket))] &&
              after.callers == w.callers[c.caller := Finishing(pc.ticket, true)] &&
              after.limiter.waiting == waiting[1..]
            else
              after.log == w.log && after.limiter.waiting == waiting &&
              after.callers == w.callers[c.caller := Testing(pc.ticket, pc.deadline, pc.sleeps + 1)]
  {
    hide Pruned, Recent, Times, IsRun;
    RunWindow(limits, worlds, choices, c);
  }

  /**
   * A waiting caller gives up exactly when it is interrupted, or finds its deadline, set one timeout after it queued,
   * reached; giving up takes no slot.
   */
  lemma GivesUpIff(limits: Limits, w: World, c: Choice)
    requires Possible(w, c) && w.callers[c.caller].Waits()
    ensures var after, pc := Next(limits, w, c), w.callers[c.caller];
            (after.callers[c.caller] == Finishing(pc.ticket, false) <==>
             c.interrupted || (pc.Testing? && c.now >= pc.deadline)) &&
            (after.callers[c.caller] == Finishing(pc.ticket, false) ==>
             after.log == w.log && after.limiter == w.limiter) &&
            (pc.Queued? && !c.interrupted ==>
             after.callers[c.caller] == Testing(pc.ticket, c.now + limits.timeout, 0)) &&
            (pc.Testing? && !c.interrupted && c.now < pc.deadline ==>
             after.callers[c.caller] == Sleeping(pc.ticket, pc.deadline, pc.sleeps, c.now))
  {
    hide TryGrant;
  }
}

/** What the gatekeeper guarantees over any sequence of calls by one caller. */
module GatekeeperRuns {
  import opened Board
  import opened Gatekeeping

  // ----- one call -----

  function Failures(calls: seq<Call>): nat {
    if calls == [] then 0
    else Failures(calls[..|calls| - 1]) + if calls[|calls| - 1].reply.ProviderFailed? then 1 else 0
  }

  /** The counters agree with the log. */
  ghost predicate Tallied(g: Gate) {
    g.callsTotal == |g.log| && g.failuresTotal == Failures(g.log)
  }

  lemma OneMore(calls: seq<Call>, c: Call)
    ensures Failures(calls + [c]) == Failures(calls) + if c.reply.ProviderFailed? then 1 else 0
  {
    assert (calls + [c])[..|calls|] == calls;
  }

  lemma AttemptTallied(policy: Policy, g: Gate, a: Attempt)
    requires Tallied(g)
    ensures Tallied(Attempted(policy, g, a).0)
  {
    hide Failures;
    OneMore(g.log, Call(a.today, a.guardClock, a.reply, a.failClock));
  }

  ghost predicate AllFailed(calls: seq<Call>) {
    forall i :: 0 <= i < |calls| ==> calls[i].reply.ProviderFailed?
  }

  /** How a call ends follows from the calls it made: all but the last failed, and the last one decides. */
  ghost predicate EndsAs(made: seq<Call>, budget: nat, end: End) {
    |made| <= budget && (made != [] ==> AllFailed(made[..|made| - 1])) &&
    (end == ProviderRaised <==> |made| == budget && AllFailed(made)) &&
    (end == Returned <==> made != [] && made[|made| - 1].reply.Answered?) &&
    (end == OtherError <==> made != [] && made[|made| - 1].reply.Crashed?) &&
    end != AssertionFailed
  }

  ghost predicate Extends(before: Gate, after: Gate) {
    |before.log| <= |after.log| && before.log == after.log[..|before.log|]
  }

  function ReplyEnd(reply: Reply): Option<End> {
    match reply case Answered => Some(Returned) case Crashed => Some(OtherError) case ProviderFailed => None
  }

  lemma AttemptLogs(policy: Policy, g: Gate, a: Attempt)
    ensures var (after, end) := Attempted(policy, g, a);
            || (after.log == g.log + [Call(a.today, a.guardClock, a.reply, a.failClock)] && end == ReplyEnd(a.reply))
            || (after.log == g.log && (end == Some(QuotaExhausted) || end == Some(CircuitOpen) || end == Some(NoSlot)))
  {
  }

  lemma {:induction false} TriedEnds(policy: Policy, g: Gate, attempts: seq<Attempt>)
    ensures var (after, end) := Tried(policy, g, attempts);
            Extends(g, after) && EndsAs(after.log[|g.log|..], |attempts|, end)
    decreases |attempts|
  {
    hide Attempted;
    if attempts != [] {
      var (next, stop) := Attempted(policy, g, attempts[0]);
      AttemptLogs(policy, g, attempts[0]);
      if stop.None? {
        TriedEnds(policy, next, attempts[1..]);
        var (after, end) := Tried(policy, next, attempts[1..]);
        assert after.log[|g.log|..] == [next.log[|g.log|]] + after.log[|next.log|..];
        FailedFirst(next.log[|g.log|], after.log[|next.log|..], |attempts| - 1, end);
      }
    }
  }

  lemma FailedFirst(c: Call, made: seq<Call>, budget: nat, end: End)
    requires c.reply.ProviderFailed? && EndsAs(made, budget, end)
    ensures EndsAs([c] + made, budget + 1, end)
  {
    var longer := [c] + made;
    assert AllFailed(made) <==> AllFailed(longer) by {
      forall i | 0 <= i < |made|
        ensures made[i] == longer[i + 1]
      {
      }
    }
    if made != [] {
      assert longer[..|longer| - 1] == [c] + made[..|made| - 1];
    }
  }

  /** At most one call per retry and one more; how execute ends is decided by those calls, and counted. */
  lemma ExecuteEnds(policy: Policy, g: Gate, attempts: seq<Attempt>)
    requires |attempts| >= Budget(policy)
    ensures var (after, end) := Executed(policy, g, attempts);
            if policy.maxRetries < 0 then after == g && end == AssertionFailed
            else Extends(g, after) && EndsAs(after.log[|g.log|..], policy.maxRetries + 1, end)
  {
    hide EndsAs, Tried;
    if policy.maxRetries >= 0 {
      TriedEnds(policy, g, attempts[..Budget(policy)]);
    }
  }

  // ----- over many calls -----

  /** Dates and clocks that never go back from one attempt to the next. */
  ghost predicate Timely(day: int, clock: real, attempts: seq<Attempt>)
    decreases |attempts|
  {
    attempts == [] ||
    (day <= attempts[0].today && clock <= attempts[0].guardClock <= attempts[0].failClock &&
     Timely(attempts[0].today, attempts[0].failClock, attempts[1..]))
  }

  function LastDay(day: int, attempts: seq<Attempt>): int {
    if attempts == [] then day else attempts[|attempts| - 1].today
  }

  function LastClock(clock: real, attempts: seq<Attempt>): real {
    if attempts == [] then clock else attempts[|attempts| - 1].failClock
  }

  /** Each call of execute is handed what its attempts may meet; attempts that are not reached do not matter. */
  ghost predicate AllTimely(policy: Policy, day: int, clock: real, calls: seq<seq<Attempt>>)
    decreases |calls|
  {
    calls == [] ||
    (|calls[0]| >= Budget(policy) && Timely(day, clock, calls[0]) &&
     AllTimely(policy, LastDay(day, calls[0]), LastClock(clock, calls[0]), calls[1..]))
  }

  ghost function Afterwards(policy: Policy, g: Gate, calls: seq<seq<Attempt>>): Gate
    requires forall i :: 0 <= i < |calls| ==> |calls[i]| >= Budget(policy)
    decreases |calls|
  {
    if calls == [] then g else Afterwards(policy, Executed(policy, g, calls[0]).0, calls[1..])
  }

  // ----- the daily quota -----

  function OnDay(calls: seq<Call>, day: int): nat {
    if calls == [] then 0 else OnDay(calls[..|calls| - 1], day) + if calls[|calls| - 1].day == day then 1 else 0
  }

  function Allowed(policy: Policy): nat {
    if policy.quota < 0 then 0 else policy.quota
  }

  ghost predicate WithinQuota(policy: Policy, calls: seq<Call>) {
    forall d :: OnDay(calls, d) <= Allowed(policy)
  }

  ghost predicate DaysUpTo(calls: seq<Call>, day: int) {
    forall i :: 0 <= i < |calls| ==> calls[i].day <= day
  }

  ghost predicate QuotaKept(policy: Policy, g: Gate, day: int) {
    g.day <= day && DaysUpTo(g.log, g.day) && g.callsToday == OnDay(g.log, g.day) && WithinQuota(policy, g.log)
  }

  lemma {:induction false} NoneLater(calls: seq<Call>, last: int, day: int)
    requires DaysUpTo(calls, last) && last < day
    ensures OnDay(calls, day) == 0
  {
    if calls != [] {
      NoneLater(calls[..|calls| - 1], last, day);
    }
  }

  lemma ChargeWithinQuota(policy: Policy, calls: seq<Call>, c: Call)
    requires WithinQuota(policy, calls) && OnDay(calls, c.day) < policy.quota
    ensures WithinQuota(policy, calls + [c]) && OnDay(calls + [c], c.day) == OnDay(calls, c.day) + 1
  {
    assert (calls + [c])[..|calls|] == calls;
    forall d
      ensures OnDay(calls + [c], d) == OnDay(calls, d) + if d == c.day then 1 else 0
    {
    }
  }

  lemma AttemptKeepsQuota(policy: Policy, g: Gate, a: Attempt, day: int)
    requires QuotaKept(policy, g, day) && day <= a.today
    ensures QuotaKept(policy, Attempted(policy, g, a).0, a.today)
  {
    hide OnDay, WithinQuota;
    if a.today != g.day {
      NoneLater(g.log, g.day, a.today);
    }
    var c := Call(a.today, a.guardClock, a.reply, a.failClock);
    if OnDay(g.log, a.today) < policy.quota {
      ChargeWithinQuota(policy, g.log, c);
    }
  }

  /**
   * The guards refuse for quota exactly when the observed date has used it up, and for the circuit exactly while it
   * cools.
   */
  lemma RefusalsExact(policy: Policy, g: Gate, a: Attempt, day: int)
    requires QuotaKept(policy, g, day) && day <= a.today
    ensures var refused := Checked(policy, g, a).1;
            var spent := OnDay(g.log, a.today) >= policy.quota;
            (refused == Some(QuotaExhausted) <==> spent) &&
            (refused == Some(CircuitOpen) <==>
             !spent && g.openedAt != 0.0 && a.guardClock - g.openedAt < policy.cooldown) &&
            (refused == None || refused == Some(QuotaExhausted) || refused == Some(CircuitOpen))
  {
    hide OnDay, WithinQuota;
    if a.today != g.day {
      NoneLater(g.log, g.day, a.today);
    }
  }

  // ----- why an attempt, and a whole call, goes as it goes -----

  ghost predicate Spent(policy: Policy, calls: seq<Call>, a: Attempt) {
    OnDay(calls, a.today) >= policy.quota
  }

  predicate Cooling(policy: Policy, openedAt: real, a: Attempt) {
    openedAt != 0.0 && a.guardClock - openedAt < policy.cooldown
  }

  function CallOf(a: Attempt): Call {
    Call(a.today, a.guardClock, a.reply, a.failClock)
  }

  /**
   * An attempt makes and charges its call exactly when the quota of the observed date is not used up, the circuit is
   * not cooling, and the limiter admits it. Only then is the reply looked at: an answer ends the streak of failures,
   * a failure makes it one longer, counted from nothing after a cooldown.
   */
  lemma AttemptDecided(policy: Policy, g: Gate, a: Attempt, day: int)
    requires QuotaKept(policy, g, day) && day <= a.today
    ensures var (after, end) := Attempted(policy, g, a);
            var spent, cooling := Spent(policy, g.log, a), Cooling(policy, g.openedAt, a);
            var streak := if g.openedAt != 0.0 then 0 else g.consecutive;
            if spent then end == Some(QuotaExhausted) && after == g.(day := after.day, callsToday := after.callsToday)
            else if cooling then
              end == Some(CircuitOpen) && after == g.(day := after.day, callsToday := after.callsToday)
            else if !a.admitted then
              end == Some(NoSlot) && after.log == g.log && after.openedAt == 0.0 && after.consecutive == streak
            else
              after.log == g.log + [CallOf(a)] &&
              match a.reply
              case Answered => end == Some(Returned) && after.consecutive == 0 && after.openedAt == 0.0
              case Crashed => end == Some(OtherError) && after.consecutive == streak && after.openedAt == 0.0
              case ProviderFailed =>
                end == None && after.consecutive == streak + 1 &&
                after.openedAt == if streak + 1 >= policy.threshold then a.failClock else 0.0
  {
    hide OnDay, WithinQuota;
    if a.today != g.day {
      NoneLater(g.log, g.day, a.today);
    }
  }

  /** The calls are those of the first attempts, each admitted; if all of them failed, the next one was refused. */
  ghost predicate Explains(policy: Policy, attempts: seq<Attempt>, made: seq<Call>, after: Gate, end: End) {
    |made| <= |attempts| &&
    (forall i :: 0 <= i < |made| ==> attempts[i].admitted && made[i] == CallOf(attempts[i])) &&
    (|made| < |attempts| && AllFailed(made) ==>
       var a := attempts[|made|];
       var spent, cooling := Spent(policy, after.log, a), Cooling(policy, after.openedAt, a);
       (end == QuotaExhausted <==> spent) && (end == CircuitOpen <==> !spent && cooling) &&
       (end == NoSlot <==> !spent && !cooling && !a.admitted) && (spent || cooling || !a.admitted)) &&
    (end == QuotaExhausted || end == CircuitOpen || end == NoSlot ==> |made| < |attempts| && AllFailed(made))
  }

  lemma {:induction false} TriedExplained(policy: Policy, g: Gate, attempts: seq<Attempt>, day: int, clock: real)
    requires QuotaKept(policy, g, day) && Timely(day, clock, attempts)
    ensures var (after, end) := Tried(policy, g, attempts);
            Extends(g, after) && Explains(policy, attempts, after.log[|g.log|..], after, end)
    decreases |attempts|
  {
    hide Attempted, QuotaKept, Explains;
    if attempts == [] {
      NothingExplained(policy, g);
    } else {
      var a := attempts[0];
      var (next, stop) := Attempted(policy, g, a);
      AttemptDecided(policy, g, a, day);
      if stop.Some? {
        FirstExplained(policy, g, attempts, next, stop.value);
      } else {
        AttemptKeepsQuota(policy, g, a, day);
        TriedExplained(policy, next, attempts[1..], a.today, a.failClock);
        var (after, end) := Tried(policy, next, attempts[1..]);
        assert after.log[|g.log|..] == [CallOf(a)] + after.log[|next.log|..];
        ExplainsLonger(policy, a, attempts[1..], after.log[|next.log|..], after, end);
        assert attempts == [a] + attempts[1..];
      }
    }
  }

  lemma NothingExplained(policy: Policy, g: Gate)
    ensures Extends(g, g) && Explains(policy, [], g.log[|g.log|..], g, ProviderRaised)
  {
  }

  lemma FirstExplained(policy: Policy, g: Gate, attempts: seq<Attempt>, after: Gate, end: End)
    requires attempts != []
    requires var a := attempts[0];
             var spent, cooling := Spent(policy, g.log, a), Cooling(policy, g.openedAt, a);
             if spent || cooling || !a.admitted then
               after.log == g.log && Cooling(policy, after.openedAt, a) == cooling &&
               end == if spent then QuotaExhausted else if cooling then CircuitOpen else NoSlot
             else after.log == g.log + [CallOf(a)] && !a.reply.ProviderFailed? && (end == Returned || end == OtherError)
    ensures Extends(g, after) && Explains(policy, attempts, after.log[|g.log|..], after, end)
  {
    hide Spent, Cooling;
    var a := attempts[0];
    if Spent(policy, g.log, a) || Cooling(policy, g.openedAt, a) || !a.admitted {
      assert after.log[|g.log|..] == [];
    } else {
      assert after.log[|g.log|..] == [CallOf(a)];
    }
  }

  lemma ExplainsLonger(policy: Policy, a: Attempt, attempts: seq<Attempt>, made: seq<Call>, after: Gate, end: End)
    requires Explains(policy, attempts, made, after, end) && a.admitted && a.reply.ProviderFailed?
    ensures Explains(policy, [a] + attempts, [CallOf(a)] + made, after, end)
  {
    hide Spent, Cooling;
    var longer := [CallOf(a)] + made;
    assert AllFailed(made) <==> AllFailed(longer) by {
      forall i | 0 <= i < |made|
        ensures made[i] == longer[i + 1]
      {
      }
    }
  }

  /**
   * Whatever one execute meets: the calls it makes are those of its first attempts, all admitted; and it is refused,
   * for quota, circuit or a missing slot in this order, exactly when all its calls failed and the next attempt meets
   * that guard.
   */
  lemma ExecuteExplained(policy: Policy, g: Gate, attempts: seq<Attempt>, day: int, clock: real)
    requires |attempts| >= Budget(policy) && policy.maxRetries >= 0
    requires QuotaKept(policy, g, day) && Timely(day, clock, attempts[..policy.maxRetries + 1])
    ensures var (after, end) := Executed(policy, g, attempts);
            Extends(g, after) &&
            Explains(policy, attempts[..policy.maxRetries + 1], after.log[|g.log|..], after, end)
  {
    hide Tried, Timely, QuotaKept, Explains;
    TriedExplained(policy, g, attempts[..Budget(policy)], day, clock);
  }

  // ----- the circuit breaker -----

  function Threshold(policy: Policy): nat {
    if policy.threshold < 1 then 1 else policy.threshold
  }

  /** The pause between two neighbouring calls reached the cooldown. */
  predicate Cooled(policy: Policy, earlier: Call, clock: real) {
    earlier.reply.ProviderFailed? && clock - earlier.failClock >= policy.cooldown
  }

  /** How many calls at the end all failed without a cooldown between neighbours. */
  function Streak(policy: Policy, calls: seq<Call>): nat {
    if calls == [] || !calls[|calls| - 1].reply.ProviderFailed? then 0
    else if |calls| >= 2 && Cooled(policy, calls[|calls| - 2], calls[|calls| - 1].guardClock) then 1
    else 1 + Streak(policy, calls[..|calls| - 1])
  }

  ghost predicate NoLongStreak(policy: Policy, calls: seq<Call>) {
    forall k :: 0 <= k <= |calls| ==> Streak(policy, calls[..k]) <= Threshold(policy)
  }

  /** Failing calls after the last success. */
  function SinceSuccess(calls: seq<Call>): nat {
    if calls == [] || calls[|calls| - 1].reply.Answered? then 0
    else SinceSuccess(calls[..|calls| - 1]) + if calls[|calls| - 1].reply.ProviderFailed? then 1 else 0
  }

  lemma SinceSuccessOfOneMore(calls: seq<Call>, c: Call)
    ensures SinceSuccess(calls + [c]) ==
            if c.reply.Answered? then 0 else SinceSuccess(calls) + if c.reply.ProviderFailed? then 1 else 0
  {
    assert (calls + [c])[..|calls|] == calls;
  }

  /** The circuit is open exactly from the failure that filled the threshold until a guard closes it. */
  ghost predicate CircuitKept(policy: Policy, g: Gate, clock: real) {
    0.0 < clock && 0 <= g.consecutive <= SinceSuccess(g.log) &&
    (g.openedAt != 0.0 <==> g.consecutive >= Threshold(policy)) &&
    (g.openedAt != 0.0 ==>
       g.log != [] && g.log[|g.log| - 1].reply.ProviderFailed? &&
       g.openedAt == g.log[|g.log| - 1].failClock) &&
    (Streak(policy, g.log) <= g.consecutive || (g.log != [] && Cooled(policy, g.log[|g.log| - 1], clock))) &&
    NoLongStreak(policy, g.log)
  }

  lemma ChargeKeepsStreaks(policy: Policy, calls: seq<Call>, c: Call)
    requires NoLongStreak(policy, calls)
    ensures Streak(policy, calls + [c]) <= Threshold(policy) ==> NoLongStreak(policy, calls + [c])
  {
    forall k | 0 <= k <= |calls|
      ensures (calls + [c])[..k] == calls[..k]
    {
    }
    assert (calls + [c])[..|calls| + 1] == calls + [c];
  }

  lemma StreakOfOneMore(policy: Policy, calls: seq<Call>, c: Call)
    ensures Streak(policy, calls + [c]) ==
            if !c.reply.ProviderFailed? then 0
            else if calls != [] && Cooled(policy, calls[|calls| - 1], c.guardClock) then 1
            else 1 + Streak(policy, calls)
  {
    assert (calls + [c])[..|calls|] == calls;
  }

  lemma AttemptKeepsCircuit(policy: Policy, g: Gate, a: Attempt, clock: real)
    requires CircuitKept(policy, g, clock) && clock <= a.guardClock <= a.failClock
    ensures CircuitKept(policy, Attempted(policy, g, a).0, a.failClock)
  {
    hide Streak, NoLongStreak, SinceSuccess;
    var c := Call(a.today, a.guardClock, a.reply, a.failClock);
    StreakOfOneMore(policy, g.log, c);
    SinceSuccessOfOneMore(g.log, c);
    ChargeKeepsStreaks(policy, g.log, c);
  }

  // ----- the guarantees -----

  ghost predicate Kept(policy: Policy, g: Gate, day: int, clock: real) {
    Tallied(g) && QuotaKept(policy, g, day) && CircuitKept(policy, g, clock)
  }

  lemma LaterKept(policy: Policy, g: Gate, day: int, clock: real, laterDay: int, laterClock: real)
    requires Kept(policy, g, day, clock) && day <= laterDay && clock <= laterClock
    ensures Kept(policy, g, laterDay, laterClock)
  {
    hide Streak, NoLongStreak, SinceSuccess, Tallied, WithinQuota, OnDay;
  }

  lemma {:induction false} TimelyLast(day: int, clock: real, attempts: seq<Attempt>)
    requires Timely(day, clock, attempts)
    ensures day <= LastDay(day, attempts) && clock <= LastClock(clock, attempts)
    decreases |attempts|
  {
    if attempts != [] {
      TimelyLast(attempts[0].today, attempts[0].failClock, attempts[1..]);
      assert attempts[1..] != [] ==> attempts[1..][|attempts| - 2] == attempts[|attempts| - 1];
    }
  }

  lemma {:induction false} TriedKeeps(policy: Policy, g: Gate, attempts: seq<Attempt>, used: nat, day: int, clock: real)
    requires used <= |attempts| && Timely(day, clock, attempts) && Kept(policy, g, day, clock)
    ensures Kept(policy, Tried(policy, g, attempts[..used]).0, LastDay(day, attempts), LastClock(clock, attempts))
    decreases used
  {
    hide Attempted, Tallied, QuotaKept, CircuitKept;
    TimelyLast(day, clock, attempts);
    if used == 0 {
      LaterKept(policy, g, day, clock, LastDay(day, attempts), LastClock(clock, attempts));
    } else {
      var a := attempts[0];
      AttemptTallied(policy, g, a);
      AttemptKeepsQuota(policy, g, a, day);
      AttemptKeepsCircuit(policy, g, a, clock);
      var next := Attempted(policy, g, a).0;
      assert attempts[..used][1..] == attempts[1..][..used - 1];
      TriedKeeps(policy, next, attempts[1..], used - 1, a.today, a.failClock);
      TimelyLast(a.today, a.failClock, attempts[1..]);
      assert attempts[1..] != [] ==> attempts[1..][|attempts| - 2] == attempts[|attempts| - 1];
      LaterKept(policy, next, a.today, a.failClock, LastDay(day, attempts), LastClock(clock, attempts));
    }
  }

  lemma {:induction false} RunKeeps(policy: Policy, g: Gate, calls: seq<seq<Attempt>>, day: int, clock: real)
      returns (lastDay: int, lastClock: real)
    requires AllTimely(policy, day, clock, calls) && Kept(policy, g, day, clock)
    ensures forall i :: 0 <= i < |calls| ==> |calls[i]| >= Budget(policy)
    ensures Kept(policy, Afterwards(policy, g, calls), lastDay, lastClock)
    decreases |calls|
  {
    hide Kept, Timely, Tried;
    lastDay, lastClock := day, clock;
    if calls != [] {
      var d, t := LastDay(day, calls[0]), LastClock(clock, calls[0]);
      var next := Executed(policy, g, calls[0]).0;
      if policy.maxRetries >= 0 {
        TriedKeeps(policy, g, calls[0], Budget(policy), day, clock);
      } else {
        TimelyLast(day, clock, calls[0]);
        LaterKept(policy, g, day, clock, d, t);
      }
      lastDay, lastClock := RunKeeps(policy, next, calls[1..], d, t);
      forall i | 0 <= i < |calls|
        ensures |calls[i]| >= Budget(policy)
      {
        assert i > 0 ==> calls[i] == calls[1..][i - 1];
      }
    }
  }

  lemma OpenedKept(policy: Policy, day: int, clock: real)
    requires 0.0 < clock
    ensures Kept(policy, Opened(day), day, clock)
  {
  }

  /** A block of failing calls without a cooldown between neighbours is a streak of its length. */
  ghost predicate Uncooled(policy: Policy, calls: seq<Call>, from: nat, count: nat) {
    from + count <= |calls| &&
    (forall i :: from <= i < from + count ==> calls[i].reply.ProviderFailed?) &&
    (forall i :: from <= i < from + count - 1 ==> calls[i + 1].guardClock - calls[i].failClock < policy.cooldown)
  }

  ghost predicate NoUncooledBlock(policy: Policy, calls: seq<Call>, count: nat) {
    forall from: nat :: !Uncooled(policy, calls, from, count)
  }

  lemma {:induction false} UncooledIsStreak(policy: Policy, calls: seq<Call>, from: nat, count: nat)
    requires Uncooled(policy, calls, from, count)
    ensures Streak(policy, calls[..from + count]) >= count
    decreases count
  {
    if count > 0 {
      UncooledIsStreak(policy, calls, from, count - 1);
      assert calls[..from + count] == calls[..from + count - 1] + [calls[from + count - 1]];
      StreakOfOneMore(policy, calls[..from + count - 1], calls[from + count - 1]);
    }
  }

  /**
   * Over any sequence of calls: the counters equal the log, no observed date is charged beyond the quota, and among
   * any threshold + 1 consecutive calls that all fail some neighbouring pair is at least the cooldown apart; and the
   * circuit is open only when the threshold of failures was reached since the last success.
   */
  lemma EveryRunGuarded(policy: Policy, start: int, clock: real, calls: seq<seq<Attempt>>)
    requires 0.0 < clock && AllTimely(policy, start, clock, calls)
    ensures forall i :: 0 <= i < |calls| ==> |calls[i]| >= Budget(policy)
    ensures var g := Afterwards(policy, Opened(start), calls);
            Tallied(g) && WithinQuota(policy, g.log) && NoUncooledBlock(policy, g.log, Threshold(policy) + 1) &&
            (g.openedAt != 0.0 ==> SinceSuccess(g.log) >= Threshold(policy))
  {
    hide Uncooled, Streak, SinceSuccess, AllTimely, Tallied, WithinQuota, Afterwards;
    OpenedKept(policy, start, clock);
    var day, end := RunKeeps(policy, Opened(start), calls, start, clock);
    var log := Afterwards(policy, Opened(start), calls).log;
    var count := Threshold(policy) + 1;
    forall from: nat
      ensures !Uncooled(policy, log, from, count)
    {
      if Uncooled(policy, log, from, count) {
        UncooledIsStreak(policy, log, from, count);
        UncooledFits(policy, log, from, count);
      }
    }
  }

  lemma UncooledFits(policy: Policy, calls: seq<Call>, from: nat, count: nat)
    requires Uncooled(policy, calls, from, count)
    ensures from + count <= |calls|
  {
  }
}

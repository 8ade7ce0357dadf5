/**
 * The single doorway for external calls: retries, the daily quota and the circuit breaker, for one caller at a time.
 */
module Gatekeeping {
  import opened Board

  datatype Policy = Policy(maxRetries: int, quota: int, threshold: int, cooldown: real)

  datatype Reply = Answered | ProviderFailed | Crashed

  /**
   * What one attempt meets outside: the date and clock its guards read, the limiter, the reply, the clock after a
   * failure.
   */
  datatype Attempt = Attempt(today: int, guardClock: real, admitted: bool, reply: Reply, failClock: real)

  datatype End = Returned | QuotaExhausted | CircuitOpen | NoSlot | OtherError | ProviderRaised | AssertionFailed

  /** A call that was charged, under the date its guards observed. */
  datatype Call = Call(day: int, guardClock: real, reply: Reply, failClock: real)

  /** The counters the state lock protects; openedAt 0.0 means closed. The log is the model's own. */
  datatype Gate = Gate(
    callsTotal: int, failuresTotal: int, day: int, callsToday: int, consecutive: int, openedAt: real, log: seq<Call>)

  function Checked(policy: Policy, g: Gate, a: Attempt): (Gate, Option<End>) {
    var dated := if a.today != g.day then g.(day := a.today, callsToday := 0) else g;
    if dated.callsToday >= policy.quota then (dated, Some(QuotaExhausted))
    else if dated.openedAt == 0.0 then (dated, None)
    else if a.guardClock - dated.openedAt < policy.cooldown then (dated, Some(CircuitOpen))
    else (dated.(openedAt := 0.0, consecutive := 0), None)
  }

  function Charged(g: Gate, a: Attempt): Gate {
    g.(callsTotal := g.callsTotal + 1, callsToday := g.callsToday + 1,
       log := g.log + [Call(a.today, a.guardClock, a.reply, a.failClock)])
  }

  function Failed(policy: Policy, g: Gate, a: Attempt): Gate {
    var counted := g.(failuresTotal := g.failuresTotal + 1, consecutive := g.consecutive + 1);
    if counted.consecutive >= policy.threshold then counted.(openedAt := a.failClock) else counted
  }

  /** One attempt; None means that the loop goes on to the next one. */
  function Attempted(policy: Policy, g: Gate, a: Attempt): (Gate, Option<End>) {
    var (checked, refused) := Checked(policy, g, a);
    if refused.Some? then (checked, refused)
    else if !a.admitted then (checked, Some(NoSlot))
    else
      var charged := Charged(checked, a);
      match a.reply
      case Answered => (charged.(consecutive := 0), Some(Returned))
      case Crashed => (charged, Some(OtherError))
      case ProviderFailed => (Failed(policy, charged, a), None)
  }

  /** Attempts until one of them ends the call; when all of them fail, the last error is raised. */
  function Tried(policy: Policy, g: Gate, attempts: seq<Attempt>): (Gate, End)
    decreases |attempts|
  {
    if attempts == [] then (g, ProviderRaised)
    else
      var (after, end) := Attempted(policy, g, attempts[0]);
      if end.Some? then (after, end.value) else Tried(policy, after, attempts[1..])
  }

  function Budget(policy: Policy): nat {
    if policy.maxRetries < 0 then 0 else policy.maxRetries + 1
  }

  function Executed(policy: Policy, g: Gate, attempts: seq<Attempt>): (Gate, End)
    requires |attempts| >= Budget(policy)
  {
    if policy.maxRetries < 0 then (g, AssertionFailed) else Tried(policy, g, attempts[..Budget(policy)])
  }

  function Opened(day: int): Gate {
    Gate(0, 0, day, 0, 0, 0.0, [])
  }

  class Gatekeeper {
    const policy: Policy
    var callsTotal: int
    var failuresTotal: int
    var day: int
    var callsToday: int
    var consecutive: int
    var openedAt: real
    ghost var log: seq<Call>

    ghost function Model(): Gate
      reads this
    {
      Gate(callsTotal, failuresTotal, day, callsToday, consecutive, openedAt, log)
    }

    constructor (policy: Policy, today: int)
      ensures this.policy == policy && Model() == Opened(today)
    {
      this.policy := policy;
      callsTotal, failuresTotal, day, callsToday, consecutive, openedAt, log := 0, 0, today, 0, 0, 0.0, [];
    }

    method CheckGuards(a: Attempt) returns (refused: Option<End>)
      modifies this
      ensures (Model(), refused) == Checked(policy, old(Model()), a)
    {
      if a.today != day {
        day, callsToday := a.today, 0;
      }
      if callsToday >= policy.quota {
        return Some(QuotaExhausted);
      }
      if openedAt != 0.0 {
        if a.guardClock - openedAt < policy.cooldown {
          return Some(CircuitOpen);
        }
        openedAt, consecutive := 0.0, 0;
      }
      return None;
    }

    method NoteFailure(a: Attempt)
      modifies this
      ensures Model() == Failed(policy, old(Model()), a)
    {
      failuresTotal := failuresTotal + 1;
      consecutive := consecutive + 1;
      if consecutive >= policy.threshold {
        openedAt := a.failClock;
      }
    }

    method Execute(attempts: seq<Attempt>) returns (end: End)
      requires |attempts| >= Budget(policy)
      modifies this
      ensures (Model(), end) == Executed(policy, old(Model()), attempts)
    {
      hide Checked, Failed;
      if policy.maxRetries < 0 {
        return AssertionFailed;
      }
      var tries := attempts[..Budget(policy)];
      for i := 0 to |tries|
        invariant Tried(policy, Model(), tries[i..]) == Tried(policy, old(Model()), tries)
      {
        assert tries[i..][1..] == tries[i + 1..];
        var a := tries[i];
        var refused := CheckGuards(a);
        if refused.Some? {
          return refused.value;
        }
        if !a.admitted {
          return NoSlot;
        }
        callsTotal, callsToday := callsTotal + 1, callsToday + 1;
        log := log + [Call(a.today, a.guardClock, a.reply, a.failClock)];
        match a.reply {
          case Answered =>
            consecutive := 0;
            return Returned;
          case Crashed =>
            return OtherError;
          case ProviderFailed =>
            NoteFailure(a);
        }
      }
      return ProviderRaised;
    }
  }
}

/** The sliding-window limiter: its locked sections as object methods, each proved to be a step on values. */
module RateLimiting {

  const WINDOW_SECONDS: real := 60.0

  datatype Limits = Limits(rpm: int, maxDepth: int, drainInterval: real, timeout: real)

  /** What the lock protects. */
  datatype Limiter = Limiter(grants: seq<real>, waiting: seq<nat>, nextTicket: nat)

  /** The grants still inside the window. */
  function Pruned(grants: seq<real>, now: real): seq<real> {
    if grants != [] && now - grants[0] >= WINDOW_SECONDS then Pruned(grants[1..], now) else grants
  }

  function TryGrant(limits: Limits, l: Limiter, now: real): (Limiter, bool) {
    var kept := Pruned(l.grants, now);
    if |kept| < limits.rpm then (l.(grants := kept + [now]), true) else (l.(grants := kept), false)
  }

  datatype Entry = Admitted | QueueFull | Ticket(ticket: nat)

  /** The first locked section of a call. */
  function Enter(limits: Limits, l: Limiter, now: real): (Limiter, Entry) {
    var (tried, granted) := if l.waiting == [] then TryGrant(limits, l, now) else (l, false);
    if granted then (tried, Admitted)
    else if |l.waiting| >= limits.maxDepth then (tried, QueueFull)
    else (tried.(waiting := l.waiting + [l.nextTicket], nextTicket := l.nextTicket + 1), Ticket(l.nextTicket))
  }

  /** The locked section after each sleep: only the head of the queue may try. */
  function Poll(limits: Limits, l: Limiter, ticket: nat, now: real): (Limiter, bool) {
    if l.waiting != [] && l.waiting[0] == ticket then
      var (tried, granted) := TryGrant(limits, l, now);
      if granted then (tried.(waiting := l.waiting[1..]), true) else (tried, false)
    else (l, false)
  }

  /** Removing the first occurrence, if there is one. */
  function Without(waiting: seq<nat>, ticket: nat): seq<nat> {
    if waiting == [] then []
    else if waiting[0] == ticket then waiting[1..]
    else [waiting[0]] + Without(waiting[1..], ticket)
  }

  /** The locked section that every queued call ends with, however it ends. */
  function Leave(l: Limiter, ticket: nat): Limiter {
    l.(waiting := Without(l.waiting, ticket))
  }

  class RateLimiter {
    const limits: Limits
    var grants: seq<real>
    var waiting: seq<nat>
    var nextTicket: nat

    ghost function Model(): Limiter
      reads this
    {
      Limiter(grants, waiting, nextTicket)
    }

    constructor (limits: Limits)
      ensures this.limits == limits && Model() == Limiter([], [], 0)
    {
      this.limits, grants, waiting, nextTicket := limits, [], [], 0;
    }

    method Prune(now: real)
      modifies this`grants
      ensures grants == Pruned(old(grants), now)
    {
      while grants != [] && now - grants[0] >= WINDOW_SECONDS
        invariant Pruned(grants, now) == Pruned(old(grants), now)
        decreases |grants|
      {
        grants := grants[1..];
      }
    }

    method TryGrantLocked(now: real) returns (granted: bool)
      modifies this`grants
      ensures (Model(), granted) == TryGrant(limits, old(Model()), now)
    {
      Prune(now);
      if |grants| < limits.rpm {
        grants := grants + [now];
        return true;
      }
      return false;
    }

    method EnterLocked(now: real) returns (entry: Entry)
      modifies this
      ensures (Model(), entry) == Enter(limits, old(Model()), now)
    {
      if waiting == [] {
        var granted := TryGrantLocked(now);
        if granted {
          return Admitted;
        }
      }
      if |waiting| >= limits.maxDepth {
        return QueueFull;
      }
      var ticket := nextTicket;
      nextTicket := nextTicket + 1;
      waiting := waiting + [ticket];
      return Ticket(ticket);
    }

    method PollLocked(ticket: nat, now: real) returns (granted: bool)
      modifies this
      ensures (Model(), granted) == Poll(limits, old(Model()), ticket, now)
    {
      if waiting != [] && waiting[0] == ticket {
        granted := TryGrantLocked(now);
        if granted {
          waiting := waiting[1..];
        }
      } else {
        granted := false;
      }
    }

    method LeaveLocked(ticket: nat)
      modifies this
      ensures Model() == Leave(old(Model()), ticket)
    {
      waiting := Without(waiting, ticket);
    }
  }
}

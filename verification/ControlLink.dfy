/** One peer's side of the opt-in control channel, and what the turn loop makes of it. */
module Controlling {
  import opened Board

  datatype Control = Enable | Status(status: string, subGame: int, budget: real) | Restart | Quit

  /** What is known of the opponent; nothing but a dash at first. */
  datatype Opponent = Opponent(status: string, subGame: Option<int>, budget: Option<real>)

  datatype Event = EnableEvent | StatusEvent(opponent: Opponent) | RestartEvent(granted: bool) | QuitEvent

  /** A status text and its step budget in rounded hundredths. */
  type Key = (string, int)

  datatype Link = Link(
    iEnabled: bool, peerEnabled: bool, opponent: Opponent, lastKey: Option<Key>, pendingRestart: bool,
      opponentQuit: bool)
  {
    predicate Active() { iEnabled && peerEnabled }
  }

  const FRESH: Link := Link(false, false, Opponent("-", None, None), None, false, false)

  /** The user's switches, as the turn loop sees them. */
  datatype Controls = Controls(enable: bool, restart: bool, quit: bool, stopped: bool, paused: bool, status: string)

  function StatusFor(c: Controls, base: string): string {
    if c.quit then "QUIT" else if c.stopped then "STOPPED" else if c.paused then "PAUSED" else base
  }

  /** One inbound message. */
  function Handled(l: Link, m: Control): (Link, Event) {
    match m
    case Enable => (l.(peerEnabled := true), EnableEvent)
    case Status(status, subGame, budget) =>
      var seen := Opponent(status, Some(subGame), Some(budget));
      (l.(opponent := seen), StatusEvent(seen))
    case Restart => (if l.Active() then l.(pendingRestart := true) else l, RestartEvent(l.Active()))
    case Quit => (l.(opponent := l.opponent.(status := "QUIT"), opponentQuit := true), QuitEvent)
  }

  function Drained(l: Link, inbox: seq<Control>): (Link, seq<Event>)
    decreases |inbox|
  {
    if inbox == [] then (l, [])
    else
      var (before, events) := Drained(l, inbox[..|inbox| - 1]);
      var (after, event) := Handled(before, inbox[|inbox| - 1]);
      (after, events + [event])
  }

  /** Python's round to two digits, taken as any function to hundredths. */
  type Rounding = real -> int

  /** A status goes out only once enabled, and only when it differs from the last one sent. */
  function Broadcasted(l: Link, round: Rounding, status: string, subGame: int, budget: real): (Link, seq<Control>) {
    var key := (status, round(budget));
    if !l.iEnabled || l.lastKey == Some(key) then (l, [])
    else (l.(lastKey := Some(key)), [Status(status, subGame, budget)])
  }

  class ControlLink {
    var iEnabled: bool
    var peerEnabled: bool
    var opponent: Opponent
    var lastKey: Option<Key>
    var pendingRestart: bool
    var opponentQuit: bool
    var sent: seq<Control>

    ghost function Model(): Link
      reads this
    {
      Link(iEnabled, peerEnabled, opponent, lastKey, pendingRestart, opponentQuit)
    }

    constructor ()
      ensures Model() == FRESH && sent == []
    {
      iEnabled, peerEnabled, opponent := false, false, Opponent("-", None, None);
      lastKey, pendingRestart, opponentQuit, sent := None, false, false, [];
    }

    method Send(m: Control)
      modifies this`sent
      ensures sent == old(sent) + [m]
    {
      sent := sent + [m];
    }

    method SwitchOn()
      modifies this
      ensures Model() == old(Model()).(iEnabled := true) && sent == old(sent) + [Enable]
    {
      iEnabled := true;
      Send(Enable);
    }

    method BroadcastStatus(round: Rounding, status: string, subGame: int, budget: real)
      modifies this
      ensures var (after, out) := Broadcasted(old(Model()), round, status, subGame, budget);
              Model() == after && sent == old(sent) + out
    {
      var key := (status, round(budget));
      if !iEnabled || lastKey == Some(key) {
        return;
      }
      lastKey := Some(key);
      Send(Status(status, subGame, budget));
    }

    method TakePendingRestart() returns (taken: bool)
      modifies this
      ensures taken == old(pendingRestart) && Model() == old(Model()).(pendingRestart := false) && sent == old(sent)
    {
      taken := pendingRestart;
      if pendingRestart {
        pendingRestart := false;
      }
    }

    method Handle(m: Control) returns (event: Event)
      modifies this
      ensures (Model(), event) == Handled(old(Model()), m) && sent == old(sent)
    {
      match m {
        case Enable =>
          peerEnabled := true;
          event := EnableEvent;
        case Status(status, subGame, budget) =>
          opponent := Opponent(status, Some(subGame), Some(budget));
          event := StatusEvent(opponent);
        case Restart =>
          if iEnabled && peerEnabled {
            pendingRestart := true;
          }
          event := RestartEvent(iEnabled && peerEnabled);
        case Quit =>
          opponent := opponent.(status := "QUIT");
          opponentQuit := true;
          event := QuitEvent;
      }
    }

    method Drain(inbox: seq<Control>) returns (events: seq<Event>)
      modifies this
      ensures (Model(), events) == Drained(old(Model()), inbox) && sent == old(sent)
    {
      hide Handled;
      events := [];
      for i := 0 to |inbox|
        invariant (Model(), events) == Drained(old(Model()), inbox[..i]) && sent == old(sent)
      {
        assert inbox[..i + 1][..i] == inbox[..i];
        var event := Handle(inbox[i]);
        events := events + [event];
      }
      assert inbox[..|inbox|] == inbox;
    }
  }

  // ----- the turn loop's use of the link -----

  datatype Effect = Carries | Quits | FollowsQuit | RestartsLocally | RestartsForPeer

  /** Everything the two functions of the turn loop read and write; sent and consumed are complete counts. */
  datatype Peer = Peer(link: Link, controls: Controls, sent: seq<Control>, consumed: nat)

  function SwitchedOn(p: Peer): Peer {
    if p.controls.enable && !p.link.iEnabled
    then p.(link := p.link.(iEnabled := true), sent := p.sent + [Enable])
    else p
  }

  function Announced(p: Peer, round: Rounding, base: string, subGame: int, budget: real): Peer {
    var status := StatusFor(p.controls, base);
    var (link, out) := Broadcasted(p.link, round, status, subGame, budget);
    p.(link := link, controls := p.controls.(status := status), sent := p.sent + out)
  }

  /** Own quit first, then the opponent's, then an own restart, then an approved restart of the peer. */
  function Checked(p: Peer): (Peer, Effect) {
    if p.controls.quit then (p.(sent := p.sent + [Quit]), Quits)
    else if p.link.opponentQuit then (p, FollowsQuit)
    else if p.controls.restart
      then (p.(controls := p.controls.(restart := false), sent := p.sent + [Restart]), RestartsLocally)
    else if p.link.pendingRestart
      then (p.(link := p.link.(pendingRestart := false), consumed := p.consumed + 1), RestartsForPeer)
    else (p, Carries)
  }

  class ControlledRuntime {
    const link: ControlLink
    var controls: Controls
    ghost var consumed: nat

    ghost function Model(): Peer
      reads this, link
    {
      Peer(link.Model(), controls, link.sent, consumed)
    }

    constructor (link: ControlLink, controls: Controls)
      ensures this.link == link && Model() == Peer(link.Model(), controls, link.sent, 0)
    {
      this.link, this.controls, consumed := link, controls, 0;
    }

    /** Enable on request, drain the inbox, announce the status. */
    method Pump(inbox: seq<Control>, round: Rounding, base: string, subGame: int, budget: real)
      modifies this, link
      ensures var on := SwitchedOn(old(Model()));
              Model() == Announced(on.(link := Drained(on.link, inbox).0), round, base, subGame, budget)
    {
      hide Drained, Broadcasted, StatusFor;
      if controls.enable && !link.iEnabled {
        link.SwitchOn();
      }
      var events := link.Drain(inbox);
      var status := StatusFor(controls, base);
      controls := controls.(status := status);
      link.BroadcastStatus(round, status, subGame, budget);
    }

    method Check() returns (effect: Effect)
      modifies this, link
      ensures (Model(), effect) == Checked(old(Model()))
    {
      if controls.quit {
        link.Send(Quit);
        return Quits;
      }
      if link.opponentQuit {
        return FollowsQuit;
      }
      if controls.restart {
        controls := controls.(restart := false);
        link.Send(Restart);
        return RestartsLocally;
      }
      var taken := link.TakePendingRestart();
      if taken {
        consumed := consumed + 1;
        return RestartsForPeer;
      }
      return Carries;
    }
  }
}

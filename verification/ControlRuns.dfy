/** Two control links over a channel that may lose or delay messages but never invents or repeats one. */
module ControlRuns {
  import opened Board
  import opened Controlling

  /** Two peers; inbound[i] holds what the other side sent to peer i and has neither arrived nor been lost. */
  datatype World = World(peers: seq<Peer>, inbound: seq<seq<Control>>)

  datatype Deed =
    | AskEnable | AskRestart | AskQuit | AskStop | AskPause(paused: bool)
    | TurnOn
    | Receive(index: nat)
    | Lose(index: nat)
    | Announce(base: string, subGame: int, budget: real)
    | Check

  datatype Step = Step(side: nat, deed: Deed)

  predicate Shaped(w: World) {
    |w.peers| == 2 && |w.inbound| == 2
  }

  predicate Possible(w: World, s: Step) {
    Shaped(w) && s.side < 2 &&
    (s.deed.Receive? ==> s.deed.index < |w.inbound[s.side]|) && (s.deed.Lose? ==> s.deed.index < |w.inbound[s.side]|)
  }

  /** The acting peer's own part of the step. */
  function Acted(round: Rounding, p: Peer, inbox: seq<Control>, deed: Deed): Peer
    requires deed.Receive? ==> deed.index < |inbox|
  {
    match deed
    case AskEnable => p.(controls := p.controls.(enable := true))
    case AskRestart => p.(controls := p.controls.(restart := true))
    case AskQuit => p.(controls := p.controls.(quit := true))
    case AskStop => p.(controls := p.controls.(stopped := true))
    case AskPause(paused) => p.(controls := p.controls.(paused := paused))
    case TurnOn => SwitchedOn(p)
    case Receive(k) => p.(link := Handled(p.link, inbox[k]).0)
    case Lose(k) => p
    case Announce(base, subGame, budget) => Announced(p, round, base, subGame, budget)
    case Check => Checked(p).0
  }

  function Removed(inbox: seq<Control>, deed: Deed): seq<Control>
    requires deed.Receive? || deed.Lose? ==> deed.index < |inbox|
  {
    if deed.Receive? || deed.Lose? then inbox[..deed.index] + inbox[deed.index + 1..] else inbox
  }

  /** What a step added to the complete list of sent messages. */
  function Added(before: Peer, after: Peer): seq<Control> {
    if |after.sent| >= |before.sent| then after.sent[|before.sent|..] else []
  }

  function Next(round: Rounding, w: World, s: Step): World
    requires Possible(w, s)
  {
    var me, them := s.side, 1 - s.side;
    var after := Acted(round, w.peers[me], w.inbound[me], s.deed);
    World(w.peers[me := after],
          w.inbound[me := Removed(w.inbound[me], s.deed)][them := w.inbound[them] + Added(w.peers[me], after)])
  }

  function Quiet(): Peer {
    Peer(FRESH, Controls(false, false, false, false, false, "READY"), [], 0)
  }

  ghost predicate IsRun(round: Rounding, worlds: seq<World>, steps: seq<Step>) {
    |worlds| == |steps| + 1 && worlds[0] == World([Quiet(), Quiet()], [[], []]) &&
    forall i :: 0 <= i < |steps| ==> Possible(worlds[i], steps[i]) && worlds[i + 1] == Next(round, worlds[i], steps[i])
  }

  /** The world after one side has received the first k messages of its inbox, one step at a time. */
  function AfterReceives(round: Rounding, w: World, side: nat, k: nat): (after: World)
    requires Shaped(w) && side < 2 && k <= |w.inbound[side]|
    ensures Shaped(after) && |after.inbound[side]| == |w.inbound[side]| - k
  {
    if k == 0 then w else Next(round, AfterReceives(round, w, side, k - 1), Step(side, Receive(0)))
  }

  lemma ReceiveFirst(round: Rounding, w: World, side: nat)
    requires Shaped(w) && side < 2 && w.inbound[side] != []
    ensures var me := w.peers[side];
            Next(round, w, Step(side, Receive(0))) ==
            World(w.peers[side := me.(link := Handled(me.link, w.inbound[side][0]).0)],
                  w.inbound[side := w.inbound[side][1..]])
  {
    hide Handled;
    var inbox := w.inbound[side];
    assert inbox[..0] + inbox[1..] == inbox[1..];
    var after := Acted(round, w.peers[side], inbox, Receive(0));
    assert w.inbound[1 - side] + Added(w.peers[side], after) == w.inbound[1 - side];
  }

  /** Draining an inbox in one go is receiving its messages one at a time, in order. */
  lemma {:induction false} DrainIsReceives(round: Rounding, w: World, side: nat, k: nat)
    requires Shaped(w) && side < 2 && k <= |w.inbound[side]|
    ensures var me := w.peers[side];
            AfterReceives(round, w, side, k) ==
            World(w.peers[side := me.(link := Drained(me.link, w.inbound[side][..k]).0)],
                  w.inbound[side := w.inbound[side][k..]])
  {
    hide Handled, Next;
    if k > 0 {
      DrainIsReceives(round, w, side, k - 1);
      assert w.inbound[side][..k][..k - 1] == w.inbound[side][..k - 1];
      assert w.inbound[side][k - 1..][1..] == w.inbound[side][k..];
      ReceiveFirst(round, AfterReceives(round, w, side, k - 1), side);
    }
  }

  // ----- what one peer keeps -----

  function Restarts(ms: seq<Control>): nat {
    if ms == [] then 0 else Restarts(ms[..|ms| - 1]) + if ms[|ms| - 1].Restart? then 1 else 0
  }

  lemma {:induction false} RestartsConcat(a: seq<Control>, b: seq<Control>)
    ensures Restarts(a + b) == Restarts(a) + Restarts(b)
  {
    if b == [] {
      assert a + b == a;
    } else {
      assert (a + b)[..|a + b| - 1] == a + b[..|b| - 1];
      RestartsConcat(a, b[..|b| - 1]);
    }
  }

  function KeyOf(round: Rounding, m: Control): Key
    requires m.Status?
  {
    (m.status, round(m.budget))
  }

  /** The key of the last status among the messages sent. */
  function LastKey(round: Rounding, sent: seq<Control>): Option<Key> {
    if sent == [] then None
    else if sent[|sent| - 1].Status? then Some(KeyOf(round, sent[|sent| - 1]))
    else LastKey(round, sent[..|sent| - 1])
  }

  /** A status is sent only after enabling, and never with the key of the status sent before it. */
  ghost predicate Disciplined(round: Rounding, sent: seq<Control>) {
    forall i :: 0 <= i < |sent| && sent[i].Status? ==>
      Enable in sent[..i] && LastKey(round, sent[..i]) != Some(KeyOf(round, sent[i]))
  }

  ghost predicate PeerKept(round: Rounding, p: Peer) {
    (p.link.iEnabled <==> Enable in p.sent) && (p.link.iEnabled ==> p.controls.enable) &&
    p.link.lastKey == LastKey(round, p.sent) && Disciplined(round, p.sent) &&
    (p.link.pendingRestart ==> p.link.Active()) && (p.consumed > 0 ==> p.link.Active())
  }

  lemma SendOne(round: Rounding, sent: seq<Control>, m: Control)
    requires Disciplined(round, sent)
    requires m.Status? ==> Enable in sent && LastKey(round, sent) != Some(KeyOf(round, m))
    ensures Disciplined(round, sent + [m])
    ensures LastKey(round, sent + [m]) == if m.Status? then Some(KeyOf(round, m)) else LastKey(round, sent)
    ensures Enable in sent + [m] <==> Enable in sent || m == Enable
  {
    assert (sent + [m])[..|sent|] == sent;
    forall i | 0 <= i < |sent|
      ensures (sent + [m])[..i] == sent[..i]
    {
    }
  }

  lemma AnnouncedKeeps(round: Rounding, p: Peer, base: string, subGame: int, budget: real)
    requires PeerKept(round, p)
    ensures PeerKept(round, Announced(p, round, base, subGame, budget))
  {
    hide Disciplined, LastKey, StatusFor;
    var status := StatusFor(p.controls, base);
    var m := Status(status, subGame, budget);
    assert p.sent + [] == p.sent;
    if p.link.iEnabled && p.link.lastKey != Some((status, round(budget))) {
      SendOne(round, p.sent, m);
    }
  }

  /** Once enabled, the last status sent is the current one after every announcement; quitting shows before stopping. */
  lemma AnnouncedIsCurrent(round: Rounding, p: Peer, base: string, subGame: int, budget: real)
    requires PeerKept(round, p) && p.link.iEnabled
    ensures var status := if p.controls.quit then "QUIT" else if p.controls.stopped then "STOPPED"
                          else if p.controls.paused then "PAUSED" else base;
            LastKey(round, Announced(p, round, base, subGame, budget).sent) == Some((status, round(budget)))
  {
    hide Disciplined, LastKey;
    AnnouncedKeeps(round, p, base, subGame, budget);
  }

  lemma ActedKeeps(round: Rounding, p: Peer, inbox: seq<Control>, deed: Deed)
    requires PeerKept(round, p) && (deed.Receive? ==> deed.index < |inbox|)
    ensures PeerKept(round, Acted(round, p, inbox, deed))
  {
    hide Disciplined, LastKey, Announced;
    match deed {
      case Announce(base, subGame, budget) => AnnouncedKeeps(round, p, base, subGame, budget);
      case TurnOn => SendOne(round, p.sent, Enable);
      case Check =>
        SendOne(round, p.sent, Quit);
        SendOne(round, p.sent, Restart);
      case AskEnable =>
      case AskRestart =>
      case AskQuit =>
      case AskStop =>
      case AskPause(_) =>
      case Receive(_) =>
      case Lose(_) =>
    }
  }

  lemma ActedSends(round: Rounding, p: Peer, inbox: seq<Control>, deed: Deed)
    requires deed.Receive? ==> deed.index < |inbox|
    ensures var after := Acted(round, p, inbox, deed);
            |after.sent| >= |p.sent| && after.sent == p.sent + Added(p, after)
  {
    hide Handled, StatusFor;
  }

  // ----- what the two peers keep together -----

  /** Nothing reaches peer i that the other side did not send, and every restart is used at most once. */
  ghost predicate Fair(me: Peer, inbox: seq<Control>, them: Peer) {
    (Enable in inbox ==> them.link.iEnabled) && (me.link.peerEnabled ==> them.link.iEnabled) &&
    me.consumed + (if me.link.pendingRestart then 1 else 0) + Restarts(inbox) <= Restarts(them.sent)
  }

  ghost predicate Kept(round: Rounding, w: World) {
    Shaped(w) && PeerKept(round, w.peers[0]) && PeerKept(round, w.peers[1]) &&
    Fair(w.peers[0], w.inbound[0], w.peers[1]) && Fair(w.peers[1], w.inbound[1], w.peers[0])
  }

  lemma RestartsOne(m: Control)
    ensures Restarts([m]) == if m.Restart? then 1 else 0
  {
    assert [m][..0] == [];
  }

  lemma RemovedExact(inbox: seq<Control>, deed: Deed)
    requires (deed.Receive? || deed.Lose?) && deed.index < |inbox|
    ensures Restarts(Removed(inbox, deed)) + (if inbox[deed.index].Restart? then 1 else 0) == Restarts(inbox)
    ensures Enable in Removed(inbox, deed) ==> Enable in inbox
  {
    hide Restarts;
    var front, m, back := inbox[..deed.index], inbox[deed.index], inbox[deed.index + 1..];
    assert inbox == front + [m] + back;
    RestartsConcat(front + [m], back);
    RestartsConcat(front, [m]);
    RestartsConcat(front, back);
    RestartsOne(m);
  }

  /** The acting side stays fair towards its own inbox. */
  lemma ActorStaysFair(round: Rounding, me: Peer, inbox: seq<Control>, them: Peer, deed: Deed)
    requires deed.Receive? || deed.Lose? ==> deed.index < |inbox|
    requires Fair(me, inbox, them)
    ensures Fair(Acted(round, me, inbox, deed), Removed(inbox, deed), them)
  {
    hide Restarts, StatusFor;
    if deed.Receive? || deed.Lose? {
      RemovedExact(inbox, deed);
    }
  }

  /** The other side stays fair when the actor's messages join its inbox. */
  lemma OtherStaysFair(round: Rounding, me: Peer, inbox: seq<Control>, them: Peer, theirs: seq<Control>, deed: Deed)
    requires deed.Receive? ==> deed.index < |inbox|
    requires PeerKept(round, me) && Fair(them, theirs, me)
    ensures var after := Acted(round, me, inbox, deed); Fair(them, theirs + Added(me, after), after)
  {
    hide Restarts, LastKey, Disciplined;
    var after := Acted(round, me, inbox, deed);
    ActedSends(round, me, inbox, deed);
    ActedKeeps(round, me, inbox, deed);
    EnabledForGood(round, me, inbox, deed);
    RestartsConcat(me.sent, Added(me, after));
    RestartsConcat(theirs, Added(me, after));
    hide Acted;
  }

  lemma EnabledForGood(round: Rounding, p: Peer, inbox: seq<Control>, deed: Deed)
    requires deed.Receive? ==> deed.index < |inbox|
    ensures p.link.iEnabled ==> Acted(round, p, inbox, deed).link.iEnabled
    ensures p.link.peerEnabled ==> Acted(round, p, inbox, deed).link.peerEnabled
    ensures p.controls.enable ==> Acted(round, p, inbox, deed).controls.enable
  {
    hide StatusFor;
  }

  lemma NextKeeps(round: Rounding, w: World, s: Step)
    requires Possible(w, s) && Kept(round, w)
    ensures Kept(round, Next(round, w, s))
  {
    hide Acted, Fair, PeerKept, Removed, Added;
    var me, them := s.side, 1 - s.side;
    ActedKeeps(round, w.peers[me], w.inbound[me], s.deed);
    ActorStaysFair(round, w.peers[me], w.inbound[me], w.peers[them], s.deed);
    OtherStaysFair(round, w.peers[me], w.inbound[me], w.peers[them], w.inbound[them], s.deed);
  }

  lemma RunPrefix(round: Rounding, worlds: seq<World>, steps: seq<Step>)
    requires IsRun(round, worlds, steps) && steps != []
    ensures IsRun(round, worlds[..|steps|], steps[..|steps| - 1])
  {
    hide Next;
  }

  lemma {:induction false} EveryRunKept(round: Rounding, worlds: seq<World>, steps: seq<Step>)
    requires IsRun(round, worlds, steps)
    ensures Kept(round, worlds[|steps|])
    decreases |steps|
  {
    hide Next, Kept;
    if steps == [] {
      StartKept(round);
    } else {
      RunPrefix(round, worlds, steps);
      EveryRunKept(round, worlds[..|steps|], steps[..|steps| - 1]);
      NextKeeps(round, worlds[|steps| - 1], steps[|steps| - 1]);
    }
  }

  lemma StartKept(round: Rounding)
    ensures Kept(round, World([Quiet(), Quiet()], [[], []]))
  {
  }

  /**
   * Active at one side means that both users opted in; restarts granted to a peer never outnumber those it was sent.
   */
  lemma ActiveMeansBothEnabled(round: Rounding, worlds: seq<World>, steps: seq<Step>, side: nat)
    requires IsRun(round, worlds, steps) && side < 2
    ensures var w := worlds[|steps|];
            Shaped(w) &&
            (w.peers[side].link.Active() ==> w.peers[0].controls.enable && w.peers[1].controls.enable) &&
            w.peers[side].consumed <= Restarts(w.peers[1 - side].sent) &&
            (w.peers[side].consumed > 0 ==> w.peers[side].link.Active()) &&
            Disciplined(round, w.peers[side].sent)
  {
    hide IsRun, Restarts, Disciplined, LastKey;
    EveryRunKept(round, worlds, steps);
  }

  lemma RunStep(round: Rounding, worlds: seq<World>, steps: seq<Step>, i: nat)
    requires IsRun(round, worlds, steps) && i < |steps|
    ensures |worlds| == |steps| + 1 && Possible(worlds[i], steps[i]) &&
            worlds[i + 1] == Next(round, worlds[i], steps[i])
    ensures Shaped(worlds[i]) && Shaped(worlds[i + 1])
  {
    hide Acted;
  }

  /** Once active, a side stays active for the rest of the run. */
  lemma {:induction false} ActiveStays(round: Rounding, worlds: seq<World>, steps: seq<Step>, side: nat, i: nat, j: nat)
    requires IsRun(round, worlds, steps) && side < 2 && i <= j <= |steps|
    requires Shaped(worlds[i]) && worlds[i].peers[side].link.Active()
    ensures Shaped(worlds[j]) && worlds[j].peers[side].link.Active()
    decreases j
  {
    hide IsRun, Acted, Removed, Added;
    if i < j {
      RunStep(round, worlds, steps, j - 1);
      ActiveStays(round, worlds, steps, side, i, j - 1);
      var w, s := worlds[j - 1], steps[j - 1];
      EnabledForGood(round, w.peers[s.side], w.inbound[s.side], s.deed);
    }
  }

  // ----- what a message and a check do, and what follows for whole runs -----

  /** What each kind of message changes at the side that receives it; nothing else changes there. */
  lemma ReceivedTells(round: Rounding, w: World, side: nat, k: nat)
    requires Possible(w, Step(side, Receive(k)))
    ensures var m, was := w.inbound[side][k], w.peers[side];
            var now := Next(round, w, Step(side, Receive(k))).peers[side];
            now == was.(link := now.link) && now.link.iEnabled == was.link.iEnabled &&
            now.link.lastKey == was.link.lastKey &&
            (now.link.peerEnabled <==> was.link.peerEnabled || m == Enable) &&
            (now.link.pendingRestart <==>
             was.link.pendingRestart || (m == Restart && was.link.iEnabled && was.link.peerEnabled)) &&
            (now.link.opponentQuit <==> was.link.opponentQuit || m == Quit) &&
            now.link.opponent == match m
                                 case Status(status, game, budget) => Opponent(status, Some(game), Some(budget))
                                 case Quit => was.link.opponent.(status := "QUIT")
                                 case _ => was.link.opponent
  {
  }

  /** Turning on opts in exactly when the user asked to, and tells the other side once. */
  lemma TurnsOnIff(round: Rounding, w: World, side: nat)
    requires Possible(w, Step(side, TurnOn))
    ensures var after, was := Next(round, w, Step(side, TurnOn)), w.peers[side];
            var opts := was.controls.enable && !was.link.iEnabled;
            after.peers[side].link == was.link.(iEnabled := was.link.iEnabled || was.controls.enable) &&
            after.inbound == w.inbound[1 - side := w.inbound[1 - side] + if opts then [Enable] else []]
  {
    var was, p := w.peers[side], Acted(round, w.peers[side], w.inbound[side], TurnOn);
    var said := if was.controls.enable && !was.link.iEnabled then [Enable] else [];
    assert p.sent == was.sent + said;
    assert Added(was, p) == said;
    assert w.inbound[side := Removed(w.inbound[side], TurnOn)] == w.inbound;
  }

  /** What a check makes of the turn, and what it sends or uses up, each request in its turn. */
  lemma CheckDecided(round: Rounding, w: World, side: nat)
    requires Possible(w, Step(side, Check))
    ensures var after, was := Next(round, w, Step(side, Check)), w.peers[side];
            var p, effect := after.peers[side], Checked(was).1;
            var own, theirs := was.controls.quit, was.link.opponentQuit;
            var again, asked := was.controls.restart, was.link.pendingRestart;
            (effect == Quits <==> own) && (effect == FollowsQuit <==> !own && theirs) &&
            (effect == RestartsLocally <==> !own && !theirs && again) &&
            (effect == RestartsForPeer <==> !own && !theirs && !again && asked) &&
            after.inbound == w.inbound[1 - side := w.inbound[1 - side] +
              (if own then [Quit] else if !theirs && again then [Restart] else [])] &&
            p.consumed == was.consumed + (if effect == RestartsForPeer then 1 else 0) &&
            p.controls == was.controls.(restart := again && (own || theirs)) &&
            p.link == was.link.(pendingRestart := asked && effect != RestartsForPeer)
  {
    var was, p := w.peers[side], Acted(round, w.peers[side], w.inbound[side], Check);
    var said := if was.controls.quit then [Quit]
                else if !was.link.opponentQuit && was.controls.restart then [Restart] else [];
    assert p.sent == was.sent + said;
    assert Added(was, p) == said;
    assert w.inbound[side := Removed(w.inbound[side], Check)] == w.inbound;
  }

  lemma PendingStays(round: Rounding, w: World, s: Step, side: nat)
    requires Possible(w, s) && side < 2 && Shaped(Next(round, w, s))
    ensures var before, after := w.peers[side], Next(round, w, s).peers[side];
            after.consumed >= before.consumed &&
            (before.link.pendingRestart ==> after.link.pendingRestart || after.consumed == before.consumed + 1)
  {
    hide Added, Removed, StatusFor;
  }

  lemma {:induction false} PendingOrUsed(round: Rounding, worlds: seq<World>, steps: seq<Step>, side: nat, i: nat,
                                         j: nat)
    requires IsRun(round, worlds, steps) && side < 2 && i <= j <= |steps|
    requires Shaped(worlds[i]) && worlds[i].peers[side].link.pendingRestart
    ensures Shaped(worlds[j]) && worlds[j].peers[side].consumed >= worlds[i].peers[side].consumed
    ensures worlds[j].peers[side].link.pendingRestart ||
            worlds[j].peers[side].consumed > worlds[i].peers[side].consumed
    decreases j
  {
    hide IsRun, Next;
    if i < j {
      RunStep(round, worlds, steps, j - 1);
      PendingOrUsed(round, worlds, steps, side, i, j - 1);
      PendingStays(round, worlds[j - 1], steps[j - 1], side);
    }
  }

  /**
   * A restart that reaches an active side is granted: at the latest by the first later check of that side that meets
   * neither a quit nor an own restart.
   */
  lemma ReceivedRestartIsGranted(round: Rounding, worlds: seq<World>, steps: seq<Step>, side: nat, i: nat, j: nat)
    requires IsRun(round, worlds, steps) && side < 2 && i < j < |steps|
    requires Possible(worlds[i], steps[i]) && Shaped(worlds[j])
    requires steps[i].side == side && steps[i].deed.Receive? && worlds[i].inbound[side][steps[i].deed.index] == Restart
    requires worlds[i].peers[side].link.iEnabled && worlds[i].peers[side].link.peerEnabled
    requires var p := worlds[j].peers[side];
             steps[j] == Step(side, Check) && !p.controls.quit && !p.link.opponentQuit && !p.controls.restart
    ensures Shaped(worlds[j + 1]) && worlds[j + 1].peers[side].consumed > worlds[i].peers[side].consumed
  {
    hide IsRun, Next;
    RunStep(round, worlds, steps, i);
    RunStep(round, worlds, steps, j);
    ReceivedTells(round, worlds[i], side, steps[i].deed.index);
    PendingOrUsed(round, worlds, steps, side, i + 1, j);
    CheckDecided(round, worlds[j], side);
  }

  /** A quit that is under way or was received comes from a user who asked for it. */
  ghost predicate QuitAsked(me: Peer, inbox: seq<Control>, them: Peer) {
    Quit in inbox || me.link.opponentQuit ==> them.controls.quit
  }

  lemma NextQuitAsked(round: Rounding, w: World, s: Step, side: nat)
    requires Possible(w, s) && side < 2 && QuitAsked(w.peers[side], w.inbound[side], w.peers[1 - side])
    ensures var after := Next(round, w, s);
            Shaped(after) && QuitAsked(after.peers[side], after.inbound[side], after.peers[1 - side])
  {
    hide StatusFor;
    var after := Next(round, w, s);
    if side == s.side {
      assert after.inbound[1 - side] == w.inbound[1 - side] + Added(w.peers[side], after.peers[side]);
      assert Quit in after.inbound[side] ==> Quit in w.inbound[side];
    } else {
      AddsQuitOnlyIfAsked(round, w.peers[s.side], w.inbound[s.side], s.deed);
    }
  }

  lemma AddsQuitOnlyIfAsked(round: Rounding, p: Peer, inbox: seq<Control>, deed: Deed)
    requires deed.Receive? ==> deed.index < |inbox|
    ensures var after := Acted(round, p, inbox, deed);
            (Quit in Added(p, after) ==> p.controls.quit) && (p.controls.quit ==> after.controls.quit)
  {
    hide StatusFor;
  }

  /** In every run a side follows a quit only if the other user asked to quit. */
  lemma {:induction false} EveryQuitWasAsked(round: Rounding, worlds: seq<World>, steps: seq<Step>, side: nat)
    requires IsRun(round, worlds, steps) && side < 2
    ensures var w := worlds[|steps|];
            Shaped(w) && QuitAsked(w.peers[side], w.inbound[side], w.peers[1 - side]) &&
            (Checked(w.peers[side]).1 == FollowsQuit ==> w.peers[1 - side].controls.quit)
    decreases |steps|
  {
    hide Next;
    if steps != [] {
      RunPrefix(round, worlds, steps);
      EveryQuitWasAsked(round, worlds[..|steps|], steps[..|steps| - 1], side);
      NextQuitAsked(round, worlds[|steps| - 1], steps[|steps| - 1], side);
    }
  }
}

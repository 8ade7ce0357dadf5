/** One Thief sub-game as a state machine: incoming Police messages, the Thief's own turns, and the turn-token loop. */
module Game {
  import opened Board
  import opened Belief
  import opened BeliefBounds
  import opened Audit
  import opened Strategy
  import opened OwnState
  import opened Grids
  import opened Hints
  import Scent
  import Wire

  /** A Police turn whose fields have been parsed; the zone is what its hint names, if anything. */
  datatype Message = Message(
    step: int, fromPolice: bool, commit: string, smell: seq<(string, Reading)>, zone: Option<Zone>,
    barrier: Option<Cell>, captureClaim: Option<Cell>, winClaim: bool)

  /** Anything the transport may hand over. */
  datatype Raw = Malformed | Wired(message: Message)
  {
    predicate WellFormed() {
      Wired? && message.step >= 1 && message.commit != ""
    }
  }

  datatype Result = Capture | Survival | Timeout | TechnicalLoss | Quit | OpponentQuit

  datatype ClaimResponse = ClaimResponse(claim: Cell, caught: bool)

  /** What one incoming message decides, or the protocol error it raises. */
  datatype Outcome =
    | Handled(result: Option<Result>, response: Option<ClaimResponse>, replayed: bool)
    | ProtocolError

  /** Agreed and private constants of one sub-game. */
  datatype Setup = Setup(
    n: nat, start: Cell, survivalThreshold: int,
    trust: real, power: Raising, leak: real,
    brain: Brain, tactics: Option<Tactics>, hash: Hash,
    scent: Scent.Terms, round: real -> int, falloff: nat -> real)

  /** The whole peer state that the turn loop reads and writes. */
  datatype State = State(
    own: Own, belief: Grid,
    incomingStep: int, history: seq<Message>, disputes: seq<string>, seen: set<string>,
    records: seq<Json>, scent: Scent.Field, result: Option<Result>, raised: bool)

  function Initial(setup: Setup): State {
    State(Start(setup.start, setup.n), Uniform(setup.n), 0, [], [], {}, [], map[], None, false)
  }

  function DisputeText(step: int): string {
    "ignored a repeat of an already-played turn (step " + Wire.IntText(step) + ")"
  }

  // ----- an incoming message -----

  /** The state once a fresh, well-ordered message has been filed. */
  function Filed(s: State, m: Message): State {
    s.(incomingStep := m.step, history := s.history + [m], seen := s.seen + {m.commit})
  }

  ghost function Sensed(setup: Setup, s: State, m: Message): (after: State)
    requires Square(s.belief, setup.n)
    ensures Square(after.belief, setup.n)
  {
    s.(belief := Fuse(s.belief, setup.n, m.smell, m.zone, setup.trust, setup.power, setup.leak))
  }

  function Walled(n: nat, s: State, barrier: Cell): (after: State)
    requires Square(s.belief, n)
    ensures Square(after.belief, n)
  {
    s.(own := s.own.NoteBarrier(barrier), belief := Exclude(s.belief, n, barrier))
  }

  /** Claims are answered after the barrier; only an uncaught Thief excludes its own cell. */
  function Answered(n: nat, s: State, m: Message): (r: (State, Outcome))
    requires Square(s.belief, n)
    ensures Square(r.0.belief, n)
  {
    if m.winClaim then (s, Handled(Some(Survival), None, false))
    else
      var response := if m.captureClaim.Some?
                      then Some(ClaimResponse(m.captureClaim.value, s.own.position == m.captureClaim.value)) else None;
      if response.Some? && response.value.caught then (s, Handled(Some(Capture), response, false))
      else (s.(belief := Exclude(s.belief, n, s.own.position)), Handled(None, response, false))
  }

  ghost function Process(setup: Setup, s: State, raw: Raw): (r: (State, Outcome))
    requires Square(s.belief, setup.n)
    ensures Square(r.0.belief, setup.n)
  {
    if !raw.WellFormed() then (s, ProtocolError)
    else
      var m := raw.message;
      if m.commit in s.seen then
        (s.(disputes := s.disputes + [DisputeText(m.step)]), Handled(None, None, true))
      else if !m.fromPolice || m.step != s.incomingStep + 1 then (s, ProtocolError)
      else
        var sensed := Sensed(setup, Filed(s, m), m);
        if m.barrier.None? then Answered(setup.n, sensed, m)
        else if !InBounds(m.barrier.value, setup.n) then (sensed, ProtocolError)
        else
          var walled := Walled(setup.n, sensed, m.barrier.value);
          if walled.own.position == m.barrier.value || walled.own.IsConfined()
          then (walled, Handled(Some(Capture), None, false))
          else Answered(setup.n, walled, m)
  }

  // ----- the Thief's own turn -----

  /** What the control channel makes of the turn before the brain is asked. */
  datatype Gate = Proceed | Stopped | QuitRequested | OpponentHasQuit | RestartRequested

  /** The brain of this turn: a shipped one with any model reply, or any other brain at all. */
  datatype Choosing = Shipped(reply: Reply) | Custom(action: Action)

  /** Everything a turn draws from outside: controls, the choice, a fresh nonce and the other sealed fields. */
  datatype TurnInput = TurnInput(gate: Gate, choosing: Choosing, nonce: string, extra: Payload)

  function ViewOf(s: State): View {
    View(s.own.n, s.own.position, s.own.visited, s.own.barriers, s.belief)
  }

  ghost function Decision(setup: Setup, s: State, choosing: Choosing): Action {
    match choosing
    case Shipped(reply) => Decide(setup.brain, setup.tactics, ViewOf(s), reply)
    case Custom(action) => action
  }

  function PriorCommit(records: seq<Json>): Json {
    if records == [] then Str("") else records[|records| - 1].Get("commit", Null)
  }

  function CellJson(cell: Cell): Json {
    List([Num(cell.0 as real), Num(cell.1 as real)])
  }

  /** The sealed payload of the turn that has just been logged. */
  function StepPayload(own: Own, prior: Json, extra: Payload): Payload {
    extra["step" := Num(own.steps as real)]["role" := Str("thief")]["prior_commit" := prior]
         ["position" := CellJson(own.position)]
         ["move" := Str(if own.log == [] then "-" else own.log[|own.log| - 1].move)]
  }

  /** Move, seal, chain, emit scent and detect survival; an emission below the agreed minimum raises. */
  function Played(setup: Setup, s: State, decision: Action, nonce: string, extra: Payload): State {
    var own := s.own.Act(decision);
    var record := Seal(setup.hash, StepPayload(own, PriorCommit(s.records), extra), nonce);
    Emitted(setup, s.(own := own, records := s.records + [record]))
  }

  function Emitted(setup: Setup, s: State): State {
    if setup.scent.intensity < setup.scent.minCenter then
      s.(scent := Scent.DecayAll(setup.round, setup.scent.decay, s.scent), raised := true)
    else
      s.(scent := Scent.Emit(setup.round, setup.falloff, setup.scent, s.scent, s.own.position),
         result := if s.own.steps >= setup.survivalThreshold then Some(Survival) else None)
  }

  ghost function TakeTurn(setup: Setup, s: State, input: TurnInput): (after: State)
    ensures after.belief == s.belief
  {
    match input.gate
    case Stopped => s.(result := Some(TechnicalLoss))
    case QuitRequested => s.(result := Some(Quit))
    case OpponentHasQuit => s.(result := Some(OpponentQuit))
    case RestartRequested => s.(raised := true)
    case Proceed => Played(setup, s, Decision(setup, s, input.choosing), input.nonce, input.extra)
  }

  // ----- the loop -----

  /** One pass of the loop: the stop control, the polled message (None when the wait times out), the next turn. */
  datatype Round = Round(stopped: bool, incoming: Option<Raw>, turn: TurnInput)

  predicate Running(s: State) {
    s.result.None? && !s.raised
  }

  ghost function Receive(setup: Setup, s: State, raw: Raw): (r: (State, Outcome))
    requires Square(s.belief, setup.n)
    ensures Square(r.0.belief, setup.n)
  {
    var (after, outcome) := Process(setup, s, raw);
    if outcome.ProtocolError? then (after.(result := Some(TechnicalLoss), raised := true), outcome)
    else if outcome.result.Some? then (after.(result := outcome.result), outcome)
    else (after, outcome)
  }

  ghost function Pass(setup: Setup, s: State, round: Round): (after: State)
    requires Square(s.belief, setup.n)
    ensures Square(after.belief, setup.n)
  {
    if !Running(s) then s
    else if round.stopped then s.(result := Some(TechnicalLoss))
    else if round.incoming.None? then s.(result := Some(Timeout))
    else
      var (after, outcome) := Receive(setup, s, round.incoming.value);
      if !Running(after) || outcome.replayed then after
      else TakeTurn(setup, after, round.turn)
  }

  /** The state at the loop head after these passes, starting with the opening turn. */
  ghost function LoopHead(setup: Setup, opening: TurnInput, rounds: seq<Round>): (s: State)
    ensures Square(s.belief, setup.n)
    decreases |rounds|
  {
    if rounds == [] then TakeTurn(setup, Initial(setup), opening)
    else
      var before := LoopHead(setup, opening, rounds[..|rounds| - 1]);
      Pass(setup, before, rounds[|rounds| - 1])
  }
}

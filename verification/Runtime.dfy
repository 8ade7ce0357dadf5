/** The turn handler and the runtime as objects that update their fields, proved to perform the game's transitions. */
module Runtime {
  import opened Board
  import opened Grids
  import opened Belief
  import opened BeliefBounds
  import opened BeliefGrids
  import opened Strategy
  import opened OwnState
  import opened Hints
  import opened Game
  import Audit
  import Scent

  class TurnHandler {
    const setup: Setup
    const state: OwnGameState
    const belief: BeliefGrid
    var history: seq<Message>
    var disputes: seq<string>
    var incomingStep: int
    var seenTurns: set<string>

    ghost predicate Valid()
      reads this, belief
    {
      belief.Valid() && belief.size == setup.n && state.n == setup.n &&
      belief.smellTrust == setup.trust && belief.smellPower == setup.power && belief.leak == setup.leak
    }

    /** The part of the game state this object and its two collaborators hold. */
    ghost function Model(): (s: State)
      reads this, state, belief
    {
      State(state.Model(), belief.probabilities, incomingStep, history, disputes, seenTurns, [], map[], None, false)
    }

    constructor (setup: Setup, state: OwnGameState, belief: BeliefGrid)
      requires belief.Valid() && belief.size == setup.n && state.n == setup.n
      requires belief.smellTrust == setup.trust && belief.smellPower == setup.power && belief.leak == setup.leak
      ensures Valid() && this.setup == setup && this.state == state && this.belief == belief
      ensures history == [] && disputes == [] && incomingStep == 0 && seenTurns == {}
    {
      this.setup, this.state, this.belief := setup, state, belief;
      history, disputes, incomingStep, seenTurns := [], [], 0, {};
    }

    method ProcessTurn(raw: Raw) returns (outcome: Outcome)
      requires Valid()
      modifies this, state, belief
      ensures Valid() && (Model(), outcome) == Process(setup, old(Model()), raw)
    {
      hide Diffuse, ObserveSmell, ObserveLikelihoods, Evidence, Exclude, LegalMoves;
      if !raw.WellFormed() {
        return ProtocolError;
      }
      var message := raw.message;
      if message.commit in seenTurns {
        disputes := disputes + [DisputeText(message.step)];
        return Handled(None, None, true);
      }
      if !message.fromPolice || message.step != incomingStep + 1 {
        return ProtocolError;
      }
      seenTurns := seenTurns + {message.commit};
      incomingStep := message.step;
      history := history + [message];
      belief.DiffuseInPlace();
      belief.ObserveSmellInPlace(message.smell);
      var evidence := InferLikelihoods(message.zone, state.n);
      belief.ObserveLikelihoodsInPlace(evidence);
      ghost var sensed := Model();
      assert sensed == Sensed(setup, Filed(old(Model()), message), message);
      if message.barrier.Some? {
        var barrier := message.barrier.value;
        if !InBounds(barrier, state.n) {
          return ProtocolError;
        }
        state.NoteBarrier(barrier);
        belief.ExcludeInPlace(barrier);
        assert Model() == Walled(setup.n, sensed, barrier);
        if state.position == barrier || Confined(state.n, state.position, state.barriers) {
          return Handled(Some(Capture), None, false);
        }
      }
      outcome := AnswerClaims(message);
    }

    /** The win claim, the capture claim and the final exclusion of the Thief's own cell. */
    method AnswerClaims(message: Message) returns (outcome: Outcome)
      requires Valid()
      modifies belief
      ensures Valid() && (Model(), outcome) == Answered(setup.n, old(Model()), message)
    {
      hide Exclude;
      if message.winClaim {
        return Handled(Some(Survival), None, false);
      }
      var response := None;
      if message.captureClaim.Some? {
        var caught := state.position == message.captureClaim.value;
        response := Some(ClaimResponse(message.captureClaim.value, caught));
        if caught {
          return Handled(Some(Capture), response, false);
        }
      }
      belief.ExcludeInPlace(state.position);
      return Handled(None, response, false);
    }
  }

  /** The same state with other runtime fields beside the handler's. */
  function Beside(s: State, records: seq<Audit.Json>, scent: Scent.Field, result: Option<Result>): State {
    s.(records := records, scent := scent, result := result)
  }

  lemma AnsweredIgnoresRuntime(n: nat, s: State, m: Message, records: seq<Audit.Json>, scent: Scent.Field,
                               result: Option<Result>)
    requires Square(s.belief, n)
    ensures Answered(n, Beside(s, records, scent, result), m) ==
            (Beside(Answered(n, s, m).0, records, scent, result), Answered(n, s, m).1)
  {
    hide Exclude;
  }

  lemma SensedIgnoresRuntime(setup: Setup, s: State, m: Message, records: seq<Audit.Json>, scent: Scent.Field,
                             result: Option<Result>)
    requires Square(s.belief, setup.n)
    ensures Sensed(setup, Filed(Beside(s, records, scent, result), m), m) ==
            Beside(Sensed(setup, Filed(s, m), m), records, scent, result)
    ensures forall barrier :: Walled(setup.n, Sensed(setup, Filed(Beside(s, records, scent, result), m), m), barrier) ==
                              Beside(Walled(setup.n, Sensed(setup, Filed(s, m), m), barrier), records, scent, result)
  {
    hide Fuse, Exclude;
  }

  /** Incoming messages neither read nor write what the runtime keeps beside the handler. */
  lemma ProcessIgnoresRuntime(setup: Setup, s: State, raw: Raw, records: seq<Audit.Json>, scent: Scent.Field,
                              result: Option<Result>)
    requires Square(s.belief, setup.n)
    ensures Process(setup, Beside(s, records, scent, result), raw) ==
            (Beside(Process(setup, s, raw).0, records, scent, result), Process(setup, s, raw).1)
  {
    hide Sensed, Walled, Answered, LegalMoves;
    if raw.Wired? {
      var m := raw.message;
      SensedIgnoresRuntime(setup, s, m, records, scent, result);
      var sensed := Sensed(setup, Filed(s, m), m);
      AnsweredIgnoresRuntime(setup.n, sensed, m, records, scent, result);
      if m.barrier.Some? {
        AnsweredIgnoresRuntime(setup.n, Walled(setup.n, sensed, m.barrier.value), m, records, scent, result);
      }
    }
  }

  class ThiefRuntime {
    const setup: Setup
    const state: OwnGameState
    const belief: BeliefGrid
    const handler: TurnHandler
    const scent: Scent.ScentField
    var records: seq<Audit.Json>
    var result: Option<Result>
    var raised: bool

    ghost predicate Valid()
      reads this, handler, belief, scent
    {
      handler.state == state && handler.belief == belief && handler.setup == setup && handler.Valid() &&
      scent.terms == setup.scent && scent.round == setup.round && scent.falloff == setup.falloff && scent.Valid()
    }

    ghost function Model(): State
      reads this, handler, state, belief, scent, handler.state, handler.belief
    {
      handler.Model().(records := records, scent := scent.values, result := result, raised := raised)
    }

    constructor (setup: Setup)
      requires setup.n >= 1 && InBounds(setup.start, setup.n)
      requires setup.scent.boardSize >= 1 && setup.scent.half >= 0
      ensures Valid() && Model() == Initial(setup) && this.setup == setup
      ensures fresh(state) && fresh(belief) && fresh(handler) && fresh(scent)
    {
      this.setup := setup;
      var s := new OwnGameState(setup.start, setup.n);
      var b := new BeliefGrid(setup.n, setup.trust, setup.power, setup.leak);
      var h := new TurnHandler(setup, s, b);
      var f := new Scent.ScentField(setup.scent, setup.round, setup.falloff);
      state, belief, handler, scent := s, b, h, f;
      records, result, raised := [], None, false;
    }

    method Ask(choosing: Choosing) returns (action: Action)
      requires Valid()
      ensures action == Decision(setup, Model(), choosing)
    {
      hide Decide, LegalMoves;
      match choosing {
        case Shipped(reply) =>
          var view := View(state.n, state.position, state.visited, state.barriers, belief.probabilities);
          action := DecideAction(setup.brain, setup.tactics, view, reply);
        case Custom(custom) => action := custom;
      }
    }

    /** Move (or hold when the move is illegal), seal, chain, emit scent, and detect survival. */
    method PlayTurn(action: Action, nonce: string, extra: Audit.Payload)
      requires Valid()
      modifies this, state, scent
      ensures Valid() && Model() == Played(setup, old(Model()), action, nonce, extra)
    {
      hide LegalMoves, Audit.Seal, StepPayload, Square, Emitted;
      var moved := state.ApplyMove(action);
      if !moved {
        moved := state.ApplyMove(Hold);
      }
      assert state.Model() == old(state.Model()).Act(action);
      var prior := PriorCommit(records);
      var own := Own(state.n, state.position, state.visited, state.barriers, state.stepNumber, state.log);
      records := records + [Audit.Seal(setup.hash, StepPayload(own, prior, extra), nonce)];
      EmitNow();
    }

    /** An emission below the agreed minimum raises after the record has been kept. */
    method EmitNow()
      requires Valid()
      modifies this, scent
      ensures Valid() && Model() == Emitted(setup, old(Model()))
    {
      hide Scent.Emit, Scent.DecayAll, Square;
      var ok, smell := scent.EmitAt(state.position);
      if ok {
        result := if state.stepNumber >= setup.survivalThreshold then Some(Survival) else None;
      } else {
        raised := true;
      }
    }

    /** The controls may end or restart the game before the brain is asked. */
    method TakeTurnNow(input: TurnInput)
      requires Valid()
      modifies this, state, scent
      ensures Valid() && Model() == TakeTurn(setup, old(Model()), input)
    {
      hide Played, Decision, Square;
      match input.gate {
        case Stopped => result := Some(TechnicalLoss);
        case QuitRequested => result := Some(Quit);
        case OpponentHasQuit => result := Some(OpponentQuit);
        case RestartRequested => raised := true;
        case Proceed =>
          var action := Ask(input.choosing);
          PlayTurn(action, input.nonce, input.extra);
      }
    }

    /** A protocol error ends the game as a technical loss and propagates. */
    method ReceiveTurn(raw: Raw) returns (outcome: Outcome)
      requires Valid() && result.None? && !raised
      modifies this, handler, state, belief
      ensures Valid() && (Model(), outcome) == Receive(setup, old(Model()), raw)
      ensures outcome.ProtocolError? ==> raised
    {
      hide Process, Square;
      ProcessIgnoresRuntime(setup, handler.Model(), raw, records, scent.values, result);
      outcome := handler.ProcessTurn(raw);
      if outcome.ProtocolError? {
        result, raised := Some(TechnicalLoss), true;
      } else if outcome.result.Some? {
        result := outcome.result;
      }
    }

    /** The turn-token loop over everything the transport and the controls deliver; silence is a timeout. */
    method Run(opening: TurnInput, rounds: seq<Round>)
      requires Valid() && Model() == Initial(setup)
      modifies this, handler, state, belief, scent
      ensures Valid() && Model() == Finished(setup, opening, rounds)
    {
      hide Pass, TakeTurn, Receive, Initial;
      TakeTurnNow(opening);
      var i := 0;
      while result.None? && !raised && i < |rounds|
        invariant Valid() && 0 <= i <= |rounds| && Model() == LoopHead(setup, opening, rounds[..i])
        decreases |rounds| - i
      {
        assert rounds[..i + 1][..i] == rounds[..i];
        OnePass(rounds[i]);
        i := i + 1;
      }
      if result.None? && !raised {
        assert rounds[..i] == rounds;
        result := Some(Timeout);
      } else {
        StoppedStays(setup, opening, rounds, i);
      }
    }

    method OnePass(round: Round)
      requires Valid() && result.None? && !raised
      modifies this, handler, state, belief, scent
      ensures Valid() && Model() == Pass(setup, old(Model()), round)
    {
      hide Receive, TakeTurn, Square;
      if round.stopped {
        result := Some(TechnicalLoss);
        return;
      }
      if round.incoming.None? {
        result := Some(Timeout);
        return;
      }
      var outcome := ReceiveTurn(round.incoming.value);
      if result.None? && !raised && !outcome.replayed {
        TakeTurnNow(round.turn);
      }
    }
  }

  /** The state when the loop has ended: with nothing left to read, the wait for a message times out. */
  ghost function Finished(setup: Setup, opening: TurnInput, rounds: seq<Round>): State {
    var s := LoopHead(setup, opening, rounds);
    if Running(s) then s.(result := Some(Timeout)) else s
  }

  lemma {:induction false} StoppedStays(setup: Setup, opening: TurnInput, rounds: seq<Round>, i: nat)
    requires i <= |rounds| && !Running(LoopHead(setup, opening, rounds[..i]))
    ensures LoopHead(setup, opening, rounds) == LoopHead(setup, opening, rounds[..i])
    decreases |rounds|
  {
    hide TakeTurn, Receive, Initial, Square;
    if i == |rounds| {
      assert rounds[..i] == rounds;
    } else {
      assert rounds[..|rounds| - 1][..i] == rounds[..i];
      StoppedStays(setup, opening, rounds[..|rounds| - 1], i);
    }
  }
}

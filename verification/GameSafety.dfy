/** Safety of whole runs: the Thief always has a legal step when asked, and the belief respects what is ruled out. */
module GameSafety {
  import opened Board
  import opened Belief
  import opened BeliefBounds
  import opened BeliefExclusions
  import opened BeliefTuning
  import opened BeliefFailure
  import opened BeliefBayes
  import opened Strategy
  import opened StrategyFacts
  import opened OwnState
  import opened Grids
  import opened Game
  import opened GameRuns
  import FloodFill

  // ----- never without a legal step -----

  ghost predicate FreeWhileRunning(setup: Setup, s: State) {
    s.own.n == setup.n && (Running(s) ==> Free(s.own))
  }

  /** A message that leaves the game undecided leaves the Thief on an open cell with a legal step. */
  lemma UndecidedStaysFree(setup: Setup, s: State, raw: Raw)
    requires Square(s.belief, setup.n) && s.own.n == setup.n && Free(s.own)
    ensures var (after, outcome) := Process(setup, s, raw);
            after.own.n == setup.n && (outcome.Handled? && outcome.result.None? ==> Free(after.own))
  {
    hide Fuse, Exclude, LegalMoves;
  }

  lemma TakeTurnStaysFree(setup: Setup, s: State, input: TurnInput)
    requires FreeWhileRunning(setup, s) && Running(s)
    ensures FreeWhileRunning(setup, TakeTurn(setup, s, input))
  {
    hide Free, Decision, Audit.Seal, StepPayload;
    if input.gate.Proceed? {
      ActKeepsBoard(s.own, Decision(setup, s, input.choosing));
      ActStaysFree(s.own, Decision(setup, s, input.choosing));
    }
  }

  lemma ActKeepsBoard(own: Own, decision: Action)
    ensures own.Act(decision).n == own.n && own.Act(decision).barriers == own.barriers
  {
  }

  lemma ReceiveStaysFree(setup: Setup, s: State, raw: Raw)
    requires Square(s.belief, setup.n) && s.own.n == setup.n && Free(s.own)
    ensures FreeWhileRunning(setup, Receive(setup, s, raw).0)
  {
    hide Process, Free;
    UndecidedStaysFree(setup, s, raw);
    ProcessFrame(setup, s, raw);
  }

  lemma PassStaysFree(setup: Setup, s: State, round: Round)
    requires Square(s.belief, setup.n) && FreeWhileRunning(setup, s)
    ensures FreeWhileRunning(setup, Pass(setup, s, round))
  {
    hide Process, TakeTurn, Free;
    if Running(s) && !round.stopped && round.incoming.Some? {
      ReceiveStaysFree(setup, s, round.incoming.value);
      var after := Receive(setup, s, round.incoming.value).0;
      if Running(after) {
        TakeTurnStaysFree(setup, after, round.turn);
      }
    }
  }

  lemma {:induction false} EveryRunStaysFree(setup: Setup, opening: TurnInput, rounds: seq<Round>)
    requires setup.n >= 2 && InBounds(setup.start, setup.n)
    ensures FreeWhileRunning(setup, LoopHead(setup, opening, rounds))
    decreases |rounds|
  {
    hide FreeWhileRunning, Pass, TakeTurn;
    if rounds == [] {
      InitiallyFree(setup);
      TakeTurnStaysFree(setup, Initial(setup), opening);
    } else {
      EveryRunStaysFree(setup, opening, rounds[..|rounds| - 1]);
      PassStaysFree(setup, LoopHead(setup, opening, rounds[..|rounds| - 1]), rounds[|rounds| - 1]);
    }
  }

  lemma InitiallyFree(setup: Setup)
    requires setup.n >= 2 && InBounds(setup.start, setup.n)
    ensures FreeWhileRunning(setup, Initial(setup)) && Free(Initial(setup).own)
  {
    StartsFree(setup.start, setup.n);
  }

  /** The brain is asked for the answer to this message: the state it is asked in. */
  ghost predicate Asked(setup: Setup, s: State, raw: Raw)
    requires Square(s.belief, setup.n)
  {
    Running(s) && var (after, outcome) := Receive(setup, s, raw); Running(after) && !outcome.replayed
  }

  lemma FreeHasMoves(s: State)
    requires Free(s.own)
    ensures ViewOf(s).Moves() != []
  {
  }

  /** The state in which the brain is asked: at the opening, or to answer a message. */
  ghost function TurnState(setup: Setup, opening: TurnInput, rounds: seq<Round>, raw: Option<Raw>): State {
    match raw
    case None => Initial(setup)
    case Some(message) => Receive(setup, LoopHead(setup, opening, rounds), message).0
  }

  /** The opening turn is always asked for. */
  ghost predicate AsksTurn(setup: Setup, opening: TurnInput, rounds: seq<Round>, raw: Option<Raw>) {
    raw.Some? ==> Asked(setup, LoopHead(setup, opening, rounds), raw.value)
  }

  lemma AskedStateIsFree(setup: Setup, opening: TurnInput, rounds: seq<Round>, raw: Option<Raw>)
    requires setup.n >= 2 && InBounds(setup.start, setup.n) && AsksTurn(setup, opening, rounds, raw)
    ensures Free(TurnState(setup, opening, rounds, raw).own)
  {
    hide Process, Free, LoopHead, Initial;
    if raw.None? {
      InitiallyFree(setup);
    } else {
      EveryRunStaysFree(setup, opening, rounds);
      ReceiveStaysFree(setup, LoopHead(setup, opening, rounds), raw.value);
    }
  }

  /**
   * On a board of size at least two, whenever the brain is asked the Thief stands on an open cell of the board and
   * has a legal step, and every shipped brain makes a legal step for any model reply.
   */
  lemma AskedOnlyWhenFree(setup: Setup, opening: TurnInput, rounds: seq<Round>, raw: Option<Raw>, reply: Reply)
    requires setup.n >= 2 && InBounds(setup.start, setup.n)
    ensures AsksTurn(setup, opening, rounds, raw) ==>
              var asked := TurnState(setup, opening, rounds, raw);
              Free(asked.own) && LegalAction(ViewOf(asked), Decide(setup.brain, setup.tactics, ViewOf(asked), reply))
  {
    hide TurnState, AsksTurn, Decide, LegalAction, Free;
    if AsksTurn(setup, opening, rounds, raw) {
      AskedStateIsFree(setup, opening, rounds, raw);
      var asked := TurnState(setup, opening, rounds, raw);
      FreeHasMoves(asked);
      ShippedBrainsMove(setup.brain, setup.tactics, ViewOf(asked), reply);
    }
  }

  /** A new barrier that neither hits nor confines the Thief, or no barrier at all. */
  predicate Harmless(setup: Setup, own: Own, barrier: Option<Cell>) {
    barrier.None? ||
    (InBounds(barrier.value, setup.n) && barrier.value != own.position && !own.NoteBarrier(barrier.value).IsConfined())
  }

  /**
   * The game goes on after a message exactly when it is fresh, in order, claims nothing true and its barrier is
   * harmless.
   */
  lemma AskedIff(setup: Setup, s: State, raw: Raw)
    requires Square(s.belief, setup.n) && Running(s)
    ensures Asked(setup, s, raw) <==>
              raw.WellFormed() && raw.message.commit !in s.seen && raw.message.fromPolice &&
              raw.message.step == s.incomingStep + 1 &&
              Harmless(setup, s.own, raw.message.barrier) && !raw.message.winClaim &&
              raw.message.captureClaim != Some(s.own.position)
  {
    hide Fuse, Exclude, LegalMoves;
  }

  /** The ghost key of the mobility choice without its area component. */
  ghost function PlainPick(view: View): Move
    requires view.Moves() != []
  {
    FirstMax(view.Moves(), (m: Move) => PlainKey(view, m))
  }

  /** At every turn of every game the area term decides nothing: order and choice are those of a version without it. */
  lemma AreaNeverDecides(setup: Setup, opening: TurnInput, rounds: seq<Round>, raw: Option<Raw>)
    requires setup.n >= 2 && InBounds(setup.start, setup.n)
    ensures AsksTurn(setup, opening, rounds, raw) ==>
              var view := ViewOf(TurnState(setup, opening, rounds, raw));
              view.Moves() != [] &&
              SameOrder(Ranked(view, 0.0), Ranked(view, AREA_WEIGHT)) && MobilityPick(view) == PlainPick(view)
  {
    hide TurnState, AsksTurn, SameOrder, Ranked, MobilityPick, FirstMax, MostLikely;
    if AsksTurn(setup, opening, rounds, raw) {
      AskedStateIsFree(setup, opening, rounds, raw);
      var asked := TurnState(setup, opening, rounds, raw);
      FreeHasMoves(asked);
      AreaWeightIrrelevant(ViewOf(asked), AREA_WEIGHT);
      MobilityIgnoresArea(ViewOf(asked));
    }
  }

  /**
   * At every turn of every game a brain without a model steps onto its favourite cell: of all cells it can reach the
   * one farthest from the believed Police, ties broken as its own order says.
   */
  lemma EveryTurnChosen(setup: Setup, opening: TurnInput, rounds: seq<Round>, raw: Option<Raw>, input: TurnInput)
    requires setup.n >= 2 && InBounds(setup.start, setup.n)
    requires setup.tactics.None? && input.gate.Proceed? && input.choosing.Shipped?
    ensures AsksTurn(setup, opening, rounds, raw) ==>
              var asked := TurnState(setup, opening, rounds, raw);
              var after := TakeTurn(setup, asked, input).own;
              var view := View(setup.n, asked.own.position, asked.own.visited, asked.own.barriers, asked.belief);
              |after.log| == |asked.own.log| + 1 && after.log[|asked.own.log|].position == after.position &&
              Favourite(setup.brain, view, MostLikely(asked.belief, setup.n), after.position)
  {
    hide TurnState, AsksTurn, Favourite, LegalMoves, MostLikely, ThiefPick, MobilityPick, Free, Audit.Seal, StepPayload;
    if AsksTurn(setup, opening, rounds, raw) {
      AskedStateIsFree(setup, opening, rounds, raw);
      AskedSize(setup, opening, rounds, raw);
      var asked := TurnState(setup, opening, rounds, raw);
      FreeHasMoves(asked);
      FreeIsOpen(asked.own);
      HeuristicPrefers(setup, asked, input);
    }
  }

  lemma FreeIsOpen(own: Own)
    requires Free(own)
    ensures Open(own.position, own.n, own.barriers)
  {
  }

  lemma AskedSize(setup: Setup, opening: TurnInput, rounds: seq<Round>, raw: Option<Raw>)
    requires InBounds(setup.start, setup.n)
    ensures TurnState(setup, opening, rounds, raw).own.n == setup.n
  {
    hide LoopHead, Process, Truthful, RecordTells, Audit.AuditReport;
    EveryRunAudits(setup, opening, rounds);
    if raw.Some? {
      ProcessFrame(setup, LoopHead(setup, opening, rounds), raw.value);
    }
  }

  lemma HeuristicPrefers(setup: Setup, s: State, input: TurnInput)
    requires s.own.n == setup.n && Open(s.own.position, s.own.n, s.own.barriers) && ViewOf(s).Moves() != []
    requires setup.tactics.None? && input.gate.Proceed? && input.choosing.Shipped?
    ensures var after := TakeTurn(setup, s, input).own;
            |after.log| == |s.own.log| + 1 && after.log[|s.own.log|].position == after.position &&
            Favourite(setup.brain, ViewOf(s), MostLikely(s.belief, setup.n), after.position)
  {
    hide Favourite, LegalMoves, MostLikely, ThiefPick, MobilityPick, Audit.Seal, StepPayload, ActionText;
    var view := ViewOf(s);
    LegalMovesExact(view.n, view.position, view.barriers);
    match setup.brain {
      case Evader => EvaderPrefers(view);
      case Mobility => MobilityPrefers(view);
    }
  }

  lemma SingleCellHolds(setup: Setup, reply: Reply)
    requires setup.n == 1 && InBounds(setup.start, setup.n)
    ensures Decide(setup.brain, setup.tactics, ViewOf(Initial(setup)), reply) == Hold
  {
    hide FloodFill.Area, Find, Choose;
    var view := ViewOf(Initial(setup));
    ConfinedExact(1, setup.start, {});
    assert view.Moves() == [];
    if setup.tactics.Some? {
      var t, only := setup.tactics.value, Ranked(view, AREA_WEIGHT);
      var hold := [Candidate("", Hold, view.position, 0.0)];
      SortIsBestFirst(hold);
      assert only[0].action == Sort(hold)[0].action;
      ChooseStaysListed(only, Hold, t.size, t.minConfidence, reply);
    }
  }

  /** The opening turn is a legal step exactly when the board has at least two rows. */
  lemma OpeningMovesIff(setup: Setup, reply: Reply)
    requires InBounds(setup.start, setup.n)
    ensures LegalAction(ViewOf(Initial(setup)), Decide(setup.brain, setup.tactics, ViewOf(Initial(setup)), reply))
            <==> setup.n >= 2
  {
    hide Decide, Free;
    if setup.n >= 2 {
      InitiallyFree(setup);
      FreeHasMoves(Initial(setup));
      ShippedBrainsMove(setup.brain, setup.tactics, ViewOf(Initial(setup)), reply);
    } else {
      SingleCellHolds(setup, reply);
    }
  }

  // ----- colour of the cell -----

  ghost predicate ShippedOnly(rounds: seq<Round>) {
    forall i :: 0 <= i < |rounds| ==> rounds[i].turn.choosing.Shipped?
  }

  /** Every turn so far was a real step, so the colour of the cell is fixed by the number of turns. */
  ghost predicate Stepped(setup: Setup, s: State) {
    Parity(s.own.position) == (Parity(setup.start) + s.own.steps) % 2 &&
    forall i :: 0 <= i < |s.own.log| ==> s.own.log[i].move != ActionText(Hold)
  }

  lemma LegalMeansMove(own: Own, view: View, action: Action)
    requires LegalAction(view, action) && view.n == own.n && view.position == own.position &&
             view.barriers == own.barriers
    ensures action.MoveTo? && own.Legal(action)
  {
  }

  lemma StepStepped(setup: Setup, s: State, decision: Action, nonce: string, extra: Audit.Payload)
    requires Stepped(setup, s) && decision.MoveTo? && s.own.Legal(decision)
    ensures Stepped(setup, Played(setup, s, decision, nonce, extra))
  {
    hide Audit.Seal, StepPayload;
    StepFlipsParity(s.own, decision);
    ActLog(s.own, decision);
    ActCounts(s.own, decision);
    LoggedText(s.own, decision);
    var log := s.own.Act(decision).log;
    forall i | 0 <= i < |log|
      ensures log[i].move != ActionText(Hold)
    {
      if i < |s.own.log| {
        assert log[i] == log[..|s.own.log|][i] == s.own.log[i];
      }
    }
  }

  lemma LoggedText(own: Own, decision: Action)
    requires decision.MoveTo? && own.Legal(decision)
    ensures |own.Act(decision).log| == |own.log| + 1
    ensures own.Act(decision).log[|own.log|].move == ActionText(decision) != ActionText(Hold)
  {
  }

  lemma TakeTurnStepped(setup: Setup, s: State, input: TurnInput)
    requires s.own.n == setup.n && Free(s.own) && Stepped(setup, s) && input.choosing.Shipped?
    ensures Stepped(setup, TakeTurn(setup, s, input))
  {
    hide Decide, LegalAction, Free, Played, Stepped;
    if input.gate.Proceed? {
      var decision := Decision(setup, s, input.choosing);
      FreeHasMoves(s);
      ShippedBrainsMove(setup.brain, setup.tactics, ViewOf(s), input.choosing.reply);
      LegalMeansMove(s.own, ViewOf(s), decision);
      StepStepped(setup, s, decision, input.nonce, input.extra);
    } else {
      SteppedSame(setup, s, TakeTurn(setup, s, input));
    }
  }

  lemma SteppedSame(setup: Setup, s: State, t: State)
    requires Stepped(setup, s) && t.own.position == s.own.position && t.own.steps == s.own.steps &&
             t.own.log == s.own.log
    ensures Stepped(setup, t)
  {
  }

  lemma PassStepped(setup: Setup, s: State, round: Round)
    requires Square(s.belief, setup.n) && FreeWhileRunning(setup, s) && Stepped(setup, s) &&
             round.turn.choosing.Shipped?
    ensures Stepped(setup, Pass(setup, s, round))
  {
    hide Process, TakeTurn, Free, Stepped;
    if !Running(s) || round.stopped || round.incoming.None? {
      SteppedSame(setup, s, Pass(setup, s, round));
    } else {
      ReceiveStaysFree(setup, s, round.incoming.value);
      ProcessFrame(setup, s, round.incoming.value);
      var (after, outcome) := Receive(setup, s, round.incoming.value);
      SteppedSame(setup, s, after);
      if Running(after) && !outcome.replayed {
        TakeTurnStepped(setup, after, round.turn);
      }
    }
  }

  /** With a shipped brain the Thief never holds still: its cell changes colour at every single turn. */
  lemma {:induction false} ShippedRunAlternates(setup: Setup, opening: TurnInput, rounds: seq<Round>)
    requires setup.n >= 2 && InBounds(setup.start, setup.n)
    requires opening.choosing.Shipped? && ShippedOnly(rounds)
    ensures Stepped(setup, LoopHead(setup, opening, rounds))
    decreases |rounds|
  {
    hide FreeWhileRunning, Pass, TakeTurn, Free;
    if rounds == [] {
      InitiallyFree(setup);
      TakeTurnStepped(setup, Initial(setup), opening);
    } else {
      var front := rounds[..|rounds| - 1];
      EveryRunStaysFree(setup, opening, front);
      ShippedRunAlternates(setup, opening, front);
      PassStepped(setup, LoopHead(setup, opening, front), rounds[|rounds| - 1]);
    }
  }

  // ----- the belief -----

  /** The belief settings for which the exclusions always hold. */
  ghost predicate Tuned(setup: Setup) {
    Settled(setup.n, setup.trust, setup.leak) && Raises(setup.power)
  }

  /** The message was accepted and decided nothing. */
  ghost predicate Undecided(setup: Setup, s: State, raw: Raw)
    requires Square(s.belief, setup.n)
  {
    var outcome := Process(setup, s, raw).1;
    outcome.Handled? && outcome.result.None? && !outcome.replayed
  }

  /** The belief of an undecided message is exactly prediction, scent, hint and both exclusions. */
  lemma UndecidedBelief(setup: Setup, s: State, raw: Raw)
    requires Square(s.belief, setup.n)
    ensures Undecided(setup, s, raw) ==>
              raw.WellFormed() &&
              Process(setup, s, raw).0.belief
              == Believe(s.belief, setup.n, raw.message.smell, raw.message.zone, raw.message.barrier, s.own.position,
                         setup.trust, setup.power, setup.leak) &&
              (raw.message.barrier.Some? ==>
               InBounds(raw.message.barrier.value, setup.n) && raw.message.barrier.value != s.own.position)
  {
    hide Fuse, Exclude, LegalMoves;
  }

  /**
   * After any accepted message that leaves the game undecided, the belief sums to one, is exactly zero on the
   * Thief's own cell and on a barrier placed in that message, and its most likely cell is neither.
   */
  lemma UndecidedBeliefRules(setup: Setup, s: State, raw: Raw)
    requires Tuned(setup) && Distribution(s.belief, setup.n) && InBounds(s.own.position, setup.n)
    ensures Undecided(setup, s, raw) ==> raw.Wired? && RulesOut(setup, Process(setup, s, raw).0, raw.message.barrier)
  {
    hide Process, Believe, Rules, MostLikely;
    UndecidedBelief(setup, s, raw);
    ProcessFrame(setup, s, raw);
    if Undecided(setup, s, raw) {
      var m := raw.message;
      BelieveHolds(s.belief, setup.n, m.smell, m.zone, m.barrier, s.own.position, setup.trust, setup.power, setup.leak);
      BelievedThreatElsewhere(Process(setup, s, raw).0.belief, setup.n, s.own.position, m.barrier);
    }
  }

  ghost predicate RulesOut(setup: Setup, s: State, barrier: Option<Cell>) {
    Rules(s.belief, setup.n, s.own.position, barrier) &&
    MostLikely(s.belief, setup.n) != s.own.position &&
    (barrier.Some? ==> MostLikely(s.belief, setup.n) != barrier.value)
  }

  /** Every message, decided or not, leaves a probability distribution. */
  lemma ProcessKeepsDistribution(setup: Setup, s: State, raw: Raw)
    requires Tuned(setup) && Distribution(s.belief, setup.n)
    ensures Distribution(Process(setup, s, raw).0.belief, setup.n)
  {
    hide Fuse, Distribution, Exclude, LegalMoves;
    if raw.WellFormed() {
      var m := raw.message;
      var fused := Fuse(s.belief, setup.n, m.smell, m.zone, setup.trust, setup.power, setup.leak);
      FuseLeaves(s.belief, setup.n, m.smell, m.zone, setup.trust, setup.power, setup.leak, (0, 0), (0, 0));
      ExcludeKeepsDistribution(fused, setup.n, s.own.position);
      if m.barrier.Some? {
        ExcludeKeepsDistribution(fused, setup.n, m.barrier.value);
        ExcludeKeepsDistribution(Exclude(fused, setup.n, m.barrier.value), setup.n, s.own.position);
      }
    }
  }

  /** At every loop head of every run the belief is a probability distribution. */
  lemma {:induction false} EveryRunKeepsDistribution(setup: Setup, opening: TurnInput, rounds: seq<Round>)
    requires Tuned(setup)
    ensures Distribution(LoopHead(setup, opening, rounds).belief, setup.n)
    decreases |rounds|
  {
    hide Distribution, Process, TakeTurn;
    if rounds == [] {
      UniformIsDistribution(setup.n);
    } else {
      var before := LoopHead(setup, opening, rounds[..|rounds| - 1]);
      EveryRunKeepsDistribution(setup, opening, rounds[..|rounds| - 1]);
      var round := rounds[|rounds| - 1];
      if round.incoming.Some? {
        ProcessKeepsDistribution(setup, before, round.incoming.value);
      }
    }
  }

  /** Hence in every run: an undecided message leaves a belief that rules out the Thief's cell and the new barrier. */
  lemma EveryRunBelieves(setup: Setup, opening: TurnInput, rounds: seq<Round>, raw: Raw)
    requires Tuned(setup) && InBounds(setup.start, setup.n)
    ensures Undecided(setup, LoopHead(setup, opening, rounds), raw) ==>
              raw.Wired? && RulesOut(setup, Process(setup, LoopHead(setup, opening, rounds), raw).0,
                                     raw.message.barrier)
  {
    hide Process, RulesOut, MostLikely, LoopHead, Distribution, Audit.AuditReport, RecordTells;
    EveryRunKeepsDistribution(setup, opening, rounds);
    EveryRunAudits(setup, opening, rounds);
    UndecidedBeliefRules(setup, LoopHead(setup, opening, rounds), raw);
  }

  /**
   * And in every run each undecided message moves the belief by prediction, scent, leak, hint and exclusions exactly
   * as their written-out rules say.
   */
  lemma EveryRunReasons(setup: Setup, opening: TurnInput, rounds: seq<Round>, raw: Raw, peak: real)
    requires Tuned(setup) && InBounds(setup.start, setup.n)
    requires raw.Wired? ==> IsPeak(ParseReadings(raw.message.smell, setup.n), peak)
    ensures var s := LoopHead(setup, opening, rounds);
            Undecided(setup, s, raw) ==>
              raw.Wired? &&
              Explained(s.belief, Process(setup, s, raw).0.belief, setup.n, raw.message.smell, raw.message.zone,
                        raw.message.barrier, s.own.position, peak, setup.trust, setup.power, setup.leak)
  {
    hide Process, LoopHead, Distribution, Explained, Believe, IsPeak, ParseReadings, Audit.AuditReport, RecordTells;
    EveryRunKeepsDistribution(setup, opening, rounds);
    EveryRunAudits(setup, opening, rounds);
    var s := LoopHead(setup, opening, rounds);
    UndecidedBelief(setup, s, raw);
    if Undecided(setup, s, raw) {
      var m := raw.message;
      BelieveIsBayes(s.belief, setup.n, m.smell, m.zone, m.barrier, s.own.position, peak, setup.trust, setup.power,
                     setup.leak);
    }
  }

  /** A first message that smells of the corner alone and says nothing else. */
  function FirstMessage(commit: string): Message {
    Message(1, true, commit, SMELL, None, None, None, false)
  }

  lemma FirstMessageUndecided(setup: Setup, commit: string)
    requires commit != ""
    ensures Undecided(setup, Initial(setup), Wired(FirstMessage(commit)))
  {
    hide Fuse, Exclude;
  }

  /**
   * Where the exclusion fails: on the two-by-two board without a leak, that first message rules out the Thief's cell
   * exactly when the trust is at most 3/epsilon - 4; beyond, the belief is uniform again and points at that very cell.
   */
  lemma FirstMessageIff(setup: Setup, commit: string)
    requires setup.n == 2 && setup.start == (0, 0) && setup.leak == 0.0 && setup.trust >= 0.0 && Raises(setup.power) &&
             commit != ""
    ensures var after := Process(setup, Initial(setup), Wired(FirstMessage(commit))).0;
            if EPSILON * (4.0 + setup.trust) <= 3.0 then At(after.belief, after.own.position) == 0.0
            else after.belief == Uniform(2) && MostLikely(after.belief, 2) == after.own.position
  {
    hide Process, Fuse, Exclude, Uniform, Undecided, SMELL;
    var s, raw := Initial(setup), Wired(FirstMessage(commit));
    FirstMessageUndecided(setup, commit);
    UndecidedBelief(setup, s, raw);
    ProcessFrame(setup, s, raw);
    FirstFused(setup.trust, setup.power);
    var fused := Fuse(Uniform(2), 2, SMELL, None, setup.trust, setup.power, 0.0);
    FirstGuard(setup.trust);
    ExcludeWorksIff(fused, 2, (0, 0));
    ExcludeAt(fused, 2, (0, 0), (0, 1));
    UniformPicksCorner();
  }

  lemma FirstGuard(trust: real)
    requires trust >= 0.0
    ensures (1.0 + trust) / (4.0 + trust) <= 1.0 - EPSILON <==> EPSILON * (4.0 + trust) <= 3.0
  {
    RatioBelow(1.0 + trust, 4.0 + trust);
  }

  lemma UniformPicksCorner()
    ensures MostLikely(Uniform(2), 2) == (0, 0)
  {
    hide MostLikely, UniformMass;
    UniformIsDistribution(2);
    MostLikelyPositive(Uniform(2), 2);
    assert !RowMajorBefore((0, 0), MostLikely(Uniform(2), 2));
  }
}

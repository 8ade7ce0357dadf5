/** Why a sub-game ended: every result of every run is traced to the pass that caused it. */
module GameEndings {
  import opened Board
  import opened Belief
  import opened BeliefBounds
  import opened Grids
  import opened Game
  import opened GameRuns
  import Audit
  import Scent

  /** A fresh, well-ordered message of the Police whose barrier, if any, is on the board. */
  ghost predicate Accepted(setup: Setup, s: State, raw: Raw) {
    raw.WellFormed() && raw.message.commit !in s.seen && raw.message.fromPolice &&
    raw.message.step == s.incomingStep + 1 &&
    (raw.message.barrier.Some? ==> InBounds(raw.message.barrier.value, setup.n))
  }

  /** Its barrier hits the Thief or leaves it without a step. */
  ghost predicate Trapped(s: State, barrier: Option<Cell>) {
    barrier.Some? && (barrier.value == s.own.position || s.own.NoteBarrier(barrier.value).IsConfined())
  }

  /** The message captures: by its barrier, or by a true claim that comes with no claim of the end. */
  ghost predicate Captures(setup: Setup, s: State, raw: Raw) {
    Accepted(setup, s, raw) &&
    (Trapped(s, raw.message.barrier) || (!raw.message.winClaim && raw.message.captureClaim == Some(s.own.position)))
  }

  /** The Police concedes: it claims the end, and its barrier does not capture. */
  ghost predicate Concedes(setup: Setup, s: State, raw: Raw) {
    Accepted(setup, s, raw) && !Trapped(s, raw.message.barrier) && raw.message.winClaim
  }

  /** The message is answered with a turn. */
  ghost predicate Continues(setup: Setup, s: State, raw: Raw) {
    Accepted(setup, s, raw) && !Captures(setup, s, raw) && !Concedes(setup, s, raw)
  }

  /** The message breaks the protocol: it is no repeat and was not accepted. */
  ghost predicate Breaks(setup: Setup, s: State, raw: Raw) {
    !Accepted(setup, s, raw) && !(raw.WellFormed() && raw.message.commit in s.seen)
  }

  /** What a message decides, from the message alone. */
  lemma MessageDecides(setup: Setup, s: State, raw: Raw)
    requires Square(s.belief, setup.n)
    ensures var outcome := Process(setup, s, raw).1;
            (outcome == ProtocolError <==> Breaks(setup, s, raw)) &&
            (outcome.Handled? && outcome.result == Some(Capture) <==> Captures(setup, s, raw)) &&
            (outcome.Handled? && outcome.result == Some(Survival) <==> Concedes(setup, s, raw)) &&
            (outcome.Handled? && outcome.result.Some? ==>
             outcome.result == Some(Capture) || outcome.result == Some(Survival)) &&
            (outcome.Handled? && outcome.result.None? && !outcome.replayed <==> Continues(setup, s, raw))
  {
    hide Fuse, Exclude, LegalMoves;
  }

  /** What the Police is told: the claimed cell and whether the Thief is on it, unless the message needs no answer. */
  ghost function Answer(setup: Setup, s: State, raw: Raw): Option<ClaimResponse> {
    if !Accepted(setup, s, raw) || Trapped(s, raw.message.barrier) || raw.message.winClaim then None
    else
      match raw.message.captureClaim
      case None => None
      case Some(cell) => Some(ClaimResponse(cell, cell == s.own.position))
  }

  /** A message gets this answer, and an accepted one adds its barrier, and only that, to the known barriers. */
  lemma MessageAnswers(setup: Setup, s: State, raw: Raw)
    requires Square(s.belief, setup.n)
    ensures var (after, outcome) := Process(setup, s, raw);
            (outcome.Handled? ==> outcome.response == Answer(setup, s, raw)) &&
            after.own.barriers == s.own.barriers +
              (if Accepted(setup, s, raw) && raw.message.barrier.Some? then {raw.message.barrier.value} else {})
  {
    hide Fuse, Exclude, LegalMoves;
  }

  /**
   * In every run the answer to a claim is the truth that the Thief has already sealed: it repeats the claimed cell, and
   * says caught exactly when that cell is the [row, column] in the Thief's last record.
   */
  lemma EveryRunAnswersTruth(setup: Setup, opening: TurnInput, rounds: seq<Round>, raw: Raw)
    requires InBounds(setup.start, setup.n)
    ensures var s := LoopHead(setup, opening, rounds);
            var outcome := Process(setup, s, raw).1;
            Running(s) && outcome.Handled? && outcome.response.Some? ==>
              var (row, column) := outcome.response.value.claim;
              raw.Wired? && raw.message.captureClaim == Some((row, column)) && s.records != [] &&
              (outcome.response.value.caught <==>
               s.records[|s.records| - 1].Get("payload", Audit.Null).Get("position", Audit.Null)
               == Audit.List([Audit.Num(row as real), Audit.Num(column as real)]))
  {
    hide LoopHead, Process, Trapped, HistoryExact, SealsTruth, Folded, AtLeastOne, RecordTells, LogKept;
    EveryRunCounts(setup, opening, rounds);
    EveryRunSealsTruth(setup, opening, rounds);
    var s := LoopHead(setup, opening, rounds);
    MessageAnswers(setup, s, raw);
    if s.records != [] {
      LastSealed(setup.start, s.records);
    }
  }

  lemma LastSealed(start: Cell, records: seq<Audit.Json>)
    requires records != [] && SealsTruth(start, records, |records| - 1)
    ensures var (row, column) := Folded(start, records, |records|);
            records[|records| - 1].Get("payload", Audit.Null).Get("position", Audit.Null)
            == Audit.List([Audit.Num(row as real), Audit.Num(column as real)])
  {
  }

  /** The reason a pass, or the opening turn, gives a result. */
  ghost predicate TurnReason(setup: Setup, input: TurnInput, after: State) {
    match after.result
    case None => true
    case Some(Survival) => input.gate.Proceed? && after.own.steps >= setup.survivalThreshold
    case Some(TechnicalLoss) => input.gate.Stopped?
    case Some(Quit) => input.gate.QuitRequested?
    case Some(OpponentQuit) => input.gate.OpponentHasQuit?
    case Some(_) => false
  }

  ghost predicate PassReason(setup: Setup, s: State, round: Round, after: State) {
    match after.result
    case None => true
    case Some(Capture) => Reads(round) && Captures(setup, s, round.incoming.value)
    case Some(Survival) =>
      Reads(round) &&
      (Concedes(setup, s, round.incoming.value) ||
       (Turns(setup, s, round) && round.turn.gate.Proceed? && after.own.steps >= setup.survivalThreshold))
    case Some(Timeout) => !round.stopped && round.incoming.None?
    case Some(TechnicalLoss) =>
      round.stopped ||
      (Reads(round) && Breaks(setup, s, round.incoming.value)) || (Turns(setup, s, round) && round.turn.gate.Stopped?)
    case Some(Quit) => Turns(setup, s, round) && round.turn.gate.QuitRequested?
    case Some(OpponentQuit) => Turns(setup, s, round) && round.turn.gate.OpponentHasQuit?
  }

  /** A message is read in this pass. */
  predicate Reads(round: Round) {
    !round.stopped && round.incoming.Some?
  }

  /** A message is read in this pass and answered, so the controls of the turn are looked at. */
  ghost predicate Turns(setup: Setup, s: State, round: Round) {
    Reads(round) && Continues(setup, s, round.incoming.value)
  }

  lemma TurnHasReason(setup: Setup, s: State, input: TurnInput)
    requires s.result.None?
    ensures TurnReason(setup, input, TakeTurn(setup, s, input))
  {
    hide Decision, Audit.Seal, StepPayload, Scent.Emit, Scent.DecayAll;
  }

  lemma PassHasReason(setup: Setup, s: State, round: Round)
    requires Square(s.belief, setup.n) && Running(s)
    ensures PassReason(setup, s, round, Pass(setup, s, round))
    ensures Pass(setup, s, round).result == Some(Capture) <==>
              !round.stopped && round.incoming.Some? && Captures(setup, s, round.incoming.value)
  {
    hide Process, TakeTurn, Captures, Concedes, Breaks, Continues;
    if !round.stopped && round.incoming.Some? {
      var raw := round.incoming.value;
      MessageDecides(setup, s, raw);
      ProcessFrame(setup, s, raw);
      var after := Receive(setup, s, raw).0;
      if Running(after) {
        TurnHasReason(setup, after, round.turn);
      }
    }
  }

  /** The result after a pass, given the steps taken by then. */
  ghost function PassResult(setup: Setup, s: State, round: Round, steps: nat): Option<Result> {
    if round.stopped then Some(TechnicalLoss)
    else if round.incoming.None? then Some(Timeout)
    else if Captures(setup, s, round.incoming.value) then Some(Capture)
    else if Concedes(setup, s, round.incoming.value) then Some(Survival)
    else if Breaks(setup, s, round.incoming.value) then Some(TechnicalLoss)
    else if !Continues(setup, s, round.incoming.value) then None
    else
      match round.turn.gate
      case Stopped => Some(TechnicalLoss)
      case QuitRequested => Some(Quit)
      case OpponentHasQuit => Some(OpponentQuit)
      case RestartRequested => None
      case Proceed =>
        if setup.scent.minCenter <= setup.scent.intensity && steps >= setup.survivalThreshold
        then Some(Survival) else None
  }

  /** An error leaves the loop: a broken protocol, a restart, or an emission below the agreed minimum. */
  ghost predicate PassRaises(setup: Setup, s: State, round: Round) {
    Reads(round) &&
    (Breaks(setup, s, round.incoming.value) ||
     (Turns(setup, s, round) &&
      (round.turn.gate.RestartRequested? ||
       (round.turn.gate.Proceed? && setup.scent.intensity < setup.scent.minCenter))))
  }

  /**
   * A pass of a running game has exactly this result, raises exactly for these reasons, and seals one more record
   * exactly when its message is answered and the controls let the turn proceed.
   */
  lemma PassExact(setup: Setup, s: State, round: Round)
    requires Square(s.belief, setup.n) && Running(s)
    ensures var after := Pass(setup, s, round);
            after.result == PassResult(setup, s, round, after.own.steps) &&
            (after.raised <==> PassRaises(setup, s, round)) &&
            |after.records| == |s.records| + if Turns(setup, s, round) && round.turn.gate.Proceed? then 1 else 0
  {
    hide Process, Decision, Captures, Concedes, Breaks, Continues, Audit.Seal, StepPayload, Scent.Emit, Scent.DecayAll;
    if !round.stopped && round.incoming.Some? {
      var raw := round.incoming.value;
      MessageDecides(setup, s, raw);
      ProcessFrame(setup, s, raw);
      OneDecision(setup, s, raw);
    }
  }

  lemma OneDecision(setup: Setup, s: State, raw: Raw)
    ensures !(Captures(setup, s, raw) && Concedes(setup, s, raw)) && !(Captures(setup, s, raw) && Breaks(setup, s, raw))
    ensures !(Concedes(setup, s, raw) && Breaks(setup, s, raw))
  {
    hide Trapped;
  }

  /** Pass k, made while the game was running, ended the run in this state, and for the reason its result names. */
  ghost predicate EndsAt(setup: Setup, opening: TurnInput, rounds: seq<Round>, k: nat, final: State)
    requires k < |rounds|
  {
    Running(LoopHead(setup, opening, rounds[..k])) &&
    !Running(final) && LoopHead(setup, opening, rounds[..k + 1]) == final &&
    PassReason(setup, LoopHead(setup, opening, rounds[..k]), rounds[k], final)
  }

  /** The opening turn ended the run in this state, and for the reason its result names. */
  ghost predicate EndsAtOpening(setup: Setup, opening: TurnInput, final: State) {
    final == TakeTurn(setup, Initial(setup), opening) && TurnReason(setup, opening, final)
  }

  /**
   * Every result of every run has its reason: the opening turn, or one pass of the loop, after which nothing changed.
   */
  lemma {:induction false} EveryEndExplained(setup: Setup, opening: TurnInput, rounds: seq<Round>)
    ensures var final := LoopHead(setup, opening, rounds);
            final.result.Some? ==>
              EndsAtOpening(setup, opening, final) ||
              exists k :: 0 <= k < |rounds| && EndsAt(setup, opening, rounds, k, final)
    decreases |rounds|
  {
    hide Pass, TakeTurn, TurnReason, PassReason;
    if rounds == [] {
      TurnHasReason(setup, Initial(setup), opening);
    } else {
      var last := |rounds| - 1;
      var front := rounds[..last];
      var before := LoopHead(setup, opening, front);
      if Running(before) {
        PassHasReason(setup, before, rounds[last]);
        assert rounds[..last + 1] == rounds;
        if LoopHead(setup, opening, rounds).result.Some? {
          assert EndsAt(setup, opening, rounds, last, LoopHead(setup, opening, rounds));
        }
      } else {
        StoppedPass(setup, before, rounds[last]);
        EveryEndExplained(setup, opening, front);
        if before.result.Some? && !EndsAtOpening(setup, opening, before) {
          var k :| 0 <= k < |front| && EndsAt(setup, opening, front, k, before);
          assert front[..k] == rounds[..k] && front[..k + 1] == rounds[..k + 1] && front[k] == rounds[k];
          assert EndsAt(setup, opening, rounds, k, before);
        }
      }
    }
  }

  lemma StoppedPass(setup: Setup, s: State, round: Round)
    requires Square(s.belief, setup.n) && !Running(s)
    ensures Pass(setup, s, round) == s
  {
    hide Process, TakeTurn;
  }

  /** A captured Thief was trapped by a barrier or truly named, by a message of that very run. */
  lemma CaptureWasReal(setup: Setup, opening: TurnInput, rounds: seq<Round>)
    ensures LoopHead(setup, opening, rounds).result == Some(Capture) ==>
              exists k :: 0 <= k < |rounds| && CapturedAt(setup, opening, rounds, k)
  {
    hide LoopHead, Captures;
    EveryEndExplained(setup, opening, rounds);
    var final := LoopHead(setup, opening, rounds);
    if final.result == Some(Capture) {
      var k :| 0 <= k < |rounds| && EndsAt(setup, opening, rounds, k, final);
      assert CapturedAt(setup, opening, rounds, k);
    }
  }

  ghost predicate CapturedAt(setup: Setup, opening: TurnInput, rounds: seq<Round>, k: nat)
    requires k < |rounds|
  {
    Running(LoopHead(setup, opening, rounds[..k])) && rounds[k].incoming.Some? &&
    Captures(setup, LoopHead(setup, opening, rounds[..k]), rounds[k].incoming.value)
  }
}

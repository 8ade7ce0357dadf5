/** The scent of a whole run: the field is the trail of the logged cells, strongest where the Thief stands. */
module GameScent {
  import opened Board
  import opened Belief
  import opened Scent
  import opened ScentTrail
  import opened Strategy
  import opened OwnState
  import opened Grids
  import opened Game
  import opened GameRuns
  import Audit

  function Positions(log: seq<LogEntry>): seq<Cell> {
    seq(|log|, i requires 0 <= i < |log| => log[i].position)
  }

  ghost function RunTrail(setup: Setup, own: Own): Field {
    Trail(setup.round, setup.falloff, setup.scent, Positions(own.log))
  }

  ghost predicate OnBoard(own: Own, n: nat) {
    forall i :: 0 <= i < |own.log| ==> InBounds(own.log[i].position, n)
  }

  ghost predicate ScentFollows(setup: Setup, s: State) {
    s.scent == RunTrail(setup, s.own) && OnBoard(s.own, setup.n)
  }

  lemma ActMoves(own: Own, decision: Action)
    ensures Positions(own.Act(decision).log) == Positions(own.log) + [own.Act(decision).position]
  {
  }

  lemma TrailGrows(setup: Setup, own: Own, decision: Action)
    ensures RunTrail(setup, own.Act(decision)) ==
            Emit(setup.round, setup.falloff, setup.scent, RunTrail(setup, own), own.Act(decision).position)
  {
    hide Emit, Positions;
    ActMoves(own, decision);
    var positions := Positions(own.Act(decision).log);
    assert positions[..|positions| - 1] == Positions(own.log);
  }

  lemma TakeTurnScent(setup: Setup, s: State, input: TurnInput)
    requires setup.scent.minCenter <= setup.scent.intensity && LogKept(setup, s) && ScentFollows(setup, s)
    ensures ScentFollows(setup, TakeTurn(setup, s, input))
  {
    hide Decision, Audit.Seal, StepPayload, Emit, RunTrail, LogKept;
    if input.gate.Proceed? {
      var decision := Decision(setup, s, input.choosing);
      TrailGrows(setup, s.own, decision);
      TakeTurnLogKept(setup, s, input);
      PositionOnBoard(setup, TakeTurn(setup, s, input));
      ActLog(s.own, decision);
      var own := s.own.Act(decision);
      forall i | 0 <= i < |own.log|
        ensures InBounds(own.log[i].position, setup.n)
      {
        if i < |s.own.log| {
          assert own.log[i] == own.log[..|s.own.log|][i] == s.own.log[i];
        }
      }
    }
  }

  lemma PositionOnBoard(setup: Setup, s: State)
    requires LogKept(setup, s)
    ensures InBounds(s.own.position, setup.n)
  {
  }

  lemma PassScent(setup: Setup, s: State, round: Round)
    requires setup.scent.minCenter <= setup.scent.intensity
    requires Square(s.belief, setup.n) && LogKept(setup, s) && ScentFollows(setup, s)
    ensures ScentFollows(setup, Pass(setup, s, round))
  {
    hide LogKept, Process, TakeTurn, Trail;
    if Running(s) && !round.stopped && round.incoming.Some? {
      ProcessFrame(setup, s, round.incoming.value);
      ReceiveLogKept(setup, s, round.incoming.value);
      TakeTurnScent(setup, Receive(setup, s, round.incoming.value).0, round.turn);
    }
  }

  /** In every run the field is what emitting once at each logged cell leaves, in order. */
  lemma {:induction false} EveryRunFollowed(setup: Setup, opening: TurnInput, rounds: seq<Round>)
    requires InBounds(setup.start, setup.n) && setup.scent.minCenter <= setup.scent.intensity
    ensures ScentFollows(setup, LoopHead(setup, opening, rounds))
    decreases |rounds|
  {
    hide Pass, TakeTurn, LogKept, Audit.AuditReport;
    if rounds == [] {
      InitialLogKept(setup);
      TakeTurnScent(setup, Initial(setup), opening);
    } else {
      var front := rounds[..|rounds| - 1];
      EveryRunAudits(setup, opening, front);
      EveryRunFollowed(setup, opening, front);
      PassScent(setup, LoopHead(setup, opening, front), rounds[|rounds| - 1]);
    }
  }

  lemma LastPosition(setup: Setup, s: State)
    requires LogKept(setup, s) && s.own.log != []
    ensures Positions(s.own.log)[|s.own.log| - 1] == s.own.position
  {
  }

  /**
   * At every loop head the scent that the opponent would read is strongest where the Thief really stands: its own
   * cell gets the full boost unless the emission rounds to nothing, whatever the order of the wire entries.
   */
  lemma EveryRunStrongestHere(setup: Setup, opening: TurnInput, rounds: seq<Round>, entries: seq<(string, Reading)>,
                                trust: real, power: Raising)
    requires InBounds(setup.start, setup.n) && Rounds(setup.round) && Falls(setup.falloff) && Raises(power)
    requires setup.scent.Agreed() && setup.scent.boardSize == setup.n
    requires var s := LoopHead(setup, opening, rounds); s.own.log != [] && IsSnapshot(s.scent, entries)
    ensures var s := LoopHead(setup, opening, rounds);
            var readings := ParseReadings(entries, setup.n);
            Intensity(s.scent, s.own.position) == Centre(setup.round, setup.scent) &&
            (CellBoost(readings, Peak(readings), trust, power, s.own.position) == 1.0 + trust
             <==> Centre(setup.round, setup.scent) > 0 || trust == 0.0)
  {
    hide LoopHead, LogKept, Audit.AuditReport, Trail, IsSnapshot, Centre, Peak, ParseReadings, CellBoost;
    EveryRunAudits(setup, opening, rounds);
    EveryRunFollowed(setup, opening, rounds);
    var s := LoopHead(setup, opening, rounds);
    LastPosition(setup, s);
    TrailStrongestHere(setup.round, setup.falloff, setup.scent, Positions(s.own.log));
    EmittedCellFullBoostIff(setup.round, setup.falloff, setup.scent, Positions(s.own.log), entries, trust, power);
  }
}

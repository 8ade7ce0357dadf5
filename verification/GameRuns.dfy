/** What holds at every loop head of every sub-game, whatever the Police, the controls and the brain do. */
module GameRuns {
  import opened Board
  import opened Belief
  import opened BeliefBounds
  import opened Audit
  import opened Strategy
  import opened OwnState
  import opened Grids
  import opened Game

  // ----- the log, the records and their audit -----

  /** A sealed record says what the log entry says. */
  ghost predicate RecordTells(record: Json, entry: LogEntry) {
    var payload := record.Get("payload", Null);
    payload.Get("step", Null) == Num(entry.step as real) &&
    payload.Get("position", Null) == List([Num(entry.position.0 as real), Num(entry.position.1 as real)]) &&
    payload.Get("move", Null) == Str(entry.move) &&
    payload.Get("role", Null) == Str("thief") &&
    payload.Has("prior_commit")
  }

  /** The private state is truthful, and the records mirror its log and pass the audit. */
  ghost predicate LogKept(setup: Setup, s: State) {
    s.own.n == setup.n && Truthful(setup.start, s.own) &&
    |s.records| == |s.own.log| &&
    (forall i :: 0 <= i < |s.records| ==> RecordTells(s.records[i], s.own.log[i])) &&
    AuditReport(setup.hash, s.records).passed
  }

  lemma InitialLogKept(setup: Setup)
    requires InBounds(setup.start, setup.n)
    ensures LogKept(setup, Initial(setup))
  {
  }

  lemma PriorIsCommitBefore(records: seq<Json>)
    ensures PriorCommit(records) == if records == [] then Str("") else CommitBefore(records, |records|)
  {
  }

  lemma ActLog(own: Own, decision: Action)
    ensures |own.Act(decision).log| == |own.log| + 1 && own.Act(decision).log[..|own.log|] == own.log
    ensures own.Act(decision).log[|own.log|].step == own.Act(decision).steps
    ensures own.Act(decision).log[|own.log|].position == own.Act(decision).position
  {
  }

  lemma PayloadTells(own: Own, prior: Json, extra: Payload, hash: Hash, nonce: string)
    requires own.log != []
    requires own.log[|own.log| - 1].step == own.steps && own.log[|own.log| - 1].position == own.position
    ensures RecordTells(Seal(hash, StepPayload(own, prior, extra), nonce), own.log[|own.log| - 1])
    ensures "prior_commit" in StepPayload(own, prior, extra) && StepPayload(own, prior, extra)["prior_commit"] == prior
  {
  }

  /** Playing a turn with any decision keeps the log truthful and the audit passing. */
  lemma PlayedLogKept(setup: Setup, s: State, decision: Action, nonce: string, extra: Payload)
    requires LogKept(setup, s)
    ensures LogKept(setup, Played(setup, s, decision, nonce, extra))
    ensures Played(setup, s, decision, nonce, extra).own == s.own.Act(decision)
  {
    hide Truthful, RecordTells, AuditReport, StepPayload, Seal, PriorCommit, CommitBefore;
    var own, prior := s.own.Act(decision), PriorCommit(s.records);
    ActTruthful(setup.start, s.own, decision);
    ActLog(s.own, decision);
    PayloadTells(own, prior, extra, setup.hash, nonce);
    PriorIsCommitBefore(s.records);
    SealedRecordExtends(setup.hash, s.records, StepPayload(own, prior, extra), nonce);
    var after := Played(setup, s, decision, nonce, extra);
    forall i | 0 <= i < |after.records|
      ensures RecordTells(after.records[i], after.own.log[i])
    {
      if i < |s.records| {
        assert after.own.log[i] == after.own.log[..|s.own.log|][i] == s.own.log[i];
      }
    }
  }

  lemma TakeTurnLogKept(setup: Setup, s: State, input: TurnInput)
    requires LogKept(setup, s)
    ensures LogKept(setup, TakeTurn(setup, s, input))
  {
    hide Truthful, RecordTells, AuditReport, Played, Decision;
    if input.gate.Proceed? {
      PlayedLogKept(setup, s, Decision(setup, s, input.choosing), input.nonce, input.extra);
    }
  }

  /** Nothing but the barriers of the private state, the belief, and what the handler files may differ. */
  ghost predicate Framed(s: State, after: State) {
    after.own == s.own.(barriers := after.own.barriers) && after.records == s.records && after.scent == s.scent &&
    after.result == s.result && after.raised == s.raised
  }

  lemma SensedFrame(setup: Setup, s: State, m: Message)
    requires Square(s.belief, setup.n)
    ensures Framed(s, Sensed(setup, Filed(s, m), m))
  {
    hide Fuse;
  }

  lemma WalledFrame(n: nat, s: State, barrier: Cell)
    requires Square(s.belief, n)
    ensures Framed(s, Walled(n, s, barrier))
  {
    hide Exclude;
  }

  lemma AnsweredFrame(n: nat, s: State, m: Message)
    requires Square(s.belief, n)
    ensures Framed(s, Answered(n, s, m).0)
  {
    hide Exclude;
  }

  /** Incoming messages touch neither the log nor the records. */
  lemma ProcessFrame(setup: Setup, s: State, raw: Raw)
    requires Square(s.belief, setup.n)
    ensures Framed(s, Process(setup, s, raw).0)
  {
    hide Sensed, Walled, Answered, LegalMoves;
    if raw.Wired? {
      var m := raw.message;
      SensedFrame(setup, s, m);
      var sensed := Sensed(setup, Filed(s, m), m);
      AnsweredFrame(setup.n, sensed, m);
      if m.barrier.Some? {
        WalledFrame(setup.n, sensed, m.barrier.value);
        AnsweredFrame(setup.n, Walled(setup.n, sensed, m.barrier.value), m);
      }
    }
  }

  lemma TruthfulIgnoresBarriers(start: Cell, own: Own, barriers: set<Cell>)
    requires Truthful(start, own)
    ensures Truthful(start, own.(barriers := barriers))
  {
  }

  lemma PassLogKept(setup: Setup, s: State, round: Round)
    requires Square(s.belief, setup.n) && LogKept(setup, s)
    ensures LogKept(setup, Pass(setup, s, round))
  {
    hide Truthful, RecordTells, AuditReport, Process, TakeTurn;
    if Running(s) && !round.stopped && round.incoming.Some? {
      ProcessFrame(setup, s, round.incoming.value);
      var after := Receive(setup, s, round.incoming.value).0;
      TruthfulIgnoresBarriers(setup.start, s.own, after.own.barriers);
      TakeTurnLogKept(setup, after, round.turn);
    }
  }

  /**
   * For every run and any brain: the records pass the audit with as many verified steps as turns taken, and
   * folding the recorded moves from the start cell gives every recorded position and every visited cell.
   */
  lemma {:induction false} EveryRunAudits(setup: Setup, opening: TurnInput, rounds: seq<Round>)
    requires InBounds(setup.start, setup.n)
    ensures LogKept(setup, LoopHead(setup, opening, rounds))
    ensures var s := LoopHead(setup, opening, rounds);
            AuditReport(setup.hash, s.records) == Report(true, s.own.steps, [])
    decreases |rounds|
  {
    hide LogKept, Pass, TakeTurn;
    if rounds == [] {
      InitialLogKept(setup);
      TakeTurnLogKept(setup, Initial(setup), opening);
    } else {
      EveryRunAudits(setup, opening, rounds[..|rounds| - 1]);
      PassLogKept(setup, LoopHead(setup, opening, rounds[..|rounds| - 1]), rounds[|rounds| - 1]);
    }
    KeptMeansAudited(setup, LoopHead(setup, opening, rounds));
  }

  lemma KeptMeansAudited(setup: Setup, s: State)
    requires LogKept(setup, s)
    ensures AuditReport(setup.hash, s.records) == Report(true, s.own.steps, [])
  {
    AuditPassesIff(setup.hash, s.records);
  }

  /** The sealed text of a record's move. */
  function SealedMove(record: Json): string {
    var move := record.Get("payload", Null).Get("move", Null);
    if move.Str? then move.s else ""
  }

  /** Folding the sealed moves of the first k records from the start cell. */
  function Folded(start: Cell, records: seq<Json>, k: nat): Cell
    requires k <= |records|
  {
    if k == 0 then start else ReplayMove(Folded(start, records, k - 1), SealedMove(records[k - 1]))
  }

  lemma {:induction false} FoldedIsReplay(start: Cell, records: seq<Json>, log: seq<LogEntry>, k: nat)
    requires |records| == |log| && k <= |log|
    requires forall i :: 0 <= i < |records| ==> RecordTells(records[i], log[i])
    ensures Folded(start, records, k) == Replay(start, log, k)
  {
    hide ReplayMove;
    if k > 0 {
      FoldedIsReplay(start, records, log, k - 1);
    }
  }

  /** The position and the move sealed in record k are those of turn k + 1 of the Thief, row before column. */
  ghost predicate SealsTruth(start: Cell, records: seq<Json>, k: nat)
    requires k < |records|
  {
    var payload, (row, column) := records[k].Get("payload", Null), Folded(start, records, k + 1);
    payload.Get("position", Null) == List([Num(row as real), Num(column as real)]) &&
    payload.Get("role", Null) == Str("thief") && payload.Get("step", Null) == Num((k + 1) as real) &&
    SealedMove(records[k]) in MOVES
  }

  /**
   * From the records of any run alone: each seals the turn number, the role, and as [row, column] the cell that
   * folding the sealed moves up to it gives; the last of these cells is where the Thief stands.
   */
  lemma EveryRunSealsTruth(setup: Setup, opening: TurnInput, rounds: seq<Round>)
    requires InBounds(setup.start, setup.n)
    ensures var s := LoopHead(setup, opening, rounds);
            Folded(setup.start, s.records, |s.records|) == s.own.position &&
            forall k :: 0 <= k < |s.records| ==> SealsTruth(setup.start, s.records, k)
  {
    hide LoopHead, LogKept, AuditReport, Folded, SealsTruth;
    EveryRunAudits(setup, opening, rounds);
    var s := LoopHead(setup, opening, rounds);
    KeptFolds(setup, s);
    forall k | 0 <= k < |s.records|
      ensures SealsTruth(setup.start, s.records, k)
    {
      KeptSealsTruth(setup, s, k);
    }
  }

  lemma KeptFolds(setup: Setup, s: State)
    requires LogKept(setup, s)
    ensures Folded(setup.start, s.records, |s.records|) == s.own.position
  {
    hide AuditReport, Replay, Folded, LogExact, LogCells, RecordTells;
    FoldedIsReplay(setup.start, s.records, s.own.log, |s.records|);
  }

  lemma KeptSealsTruth(setup: Setup, s: State, k: nat)
    requires LogKept(setup, s) && k < |s.records|
    ensures SealsTruth(setup.start, s.records, k)
  {
    hide AuditReport, Replay, Folded, LogCells, Seen, RecordTells;
    FoldedIsReplay(setup.start, s.records, s.own.log, k + 1);
    EntryTold(s.records[k], s.own.log[k]);
  }

  lemma EntryTold(record: Json, entry: LogEntry)
    requires RecordTells(record, entry)
    ensures var payload := record.Get("payload", Null);
            payload.Get("position", Null) == List([Num(entry.position.0 as real), Num(entry.position.1 as real)]) &&
            payload.Get("role", Null) == Str("thief") && payload.Get("step", Null) == Num(entry.step as real) &&
            SealedMove(record) == entry.move
  {
  }

  lemma RecordsChained(setup: Setup, s: State)
    requires LogKept(setup, s)
    ensures Chained(s.records)
  {
    hide Truthful, AuditReport;
    assert forall i :: 0 <= i < |s.records| ==> RecordTells(s.records[i], s.own.log[i]);
  }

  /**
   * The last commit of a run pins its records: any audited, fully chained log that ends in the same commit is those
   * records, unless the two logs exhibit a collision of the hash.
   */
  lemma LastCommitFixesRun(setup: Setup, opening: TurnInput, rounds: seq<Round>, log: seq<Json>)
    requires InBounds(setup.start, setup.n) && log != [] && NonEmptyCommits(log) && Chained(log)
    requires AuditReport(setup.hash, log).passed
    ensures var records := LoopHead(setup, opening, rounds).records;
            records != [] && NonEmptyCommits(records) && log[|log| - 1].Get("commit", Null) == PriorCommit(records) ==>
              SameLog(log, records) || Clash(setup.hash, log, records)
  {
    hide LoopHead, LogKept, Chained, NonEmptyCommits, AuditReport, SameLog, Clash;
    EveryRunAudits(setup, opening, rounds);
    var s := LoopHead(setup, opening, rounds);
    RecordsChained(setup, s);
    if s.records != [] && NonEmptyCommits(s.records) && log[|log| - 1].Get("commit", Null) == PriorCommit(s.records) {
      LastCommitFixesLog(setup.hash, log, s.records);
    }
  }

  // ----- counters, history and replays -----

  ghost function Commits(history: seq<Message>): set<string> {
    set i | 0 <= i < |history| :: history[i].commit
  }

  ghost predicate HistoryExact(s: State) {
    |s.history| == s.incomingStep && s.seen == Commits(s.history) &&
    (forall i :: 0 <= i < |s.history| ==> s.history[i].step == i + 1 && s.history[i].fromPolice) &&
    (forall i, j :: 0 <= i < j < |s.history| ==> s.history[i].commit != s.history[j].commit)
  }

  function AtLeastOne(threshold: int): int {
    if threshold > 1 then threshold else 1
  }

  /** Turn counters in step while the game runs, and survival declared as soon as the threshold is reached. */
  ghost predicate Counted(setup: Setup, s: State) {
    HistoryExact(s) &&
    s.own.steps <= AtLeastOne(setup.survivalThreshold) &&
    (Running(s) ==> s.own.steps == s.incomingStep + 1 && s.own.steps < setup.survivalThreshold)
  }

  lemma FiledExact(s: State, m: Message)
    requires HistoryExact(s) && m.commit !in s.seen && m.fromPolice && m.step == s.incomingStep + 1
    ensures HistoryExact(Filed(s, m))
  {
    var after := Filed(s, m);
    assert after.history == s.history + [m];
    forall c
      ensures c in after.seen <==> c in Commits(after.history)
    {
      if c in Commits(s.history) {
        var i :| 0 <= i < |s.history| && s.history[i].commit == c;
        assert after.history[i].commit == c;
      }
      if c == m.commit {
        assert after.history[|s.history|].commit == c;
      }
    }
    forall i | 0 <= i < |s.history|
      ensures s.history[i].commit != m.commit
    {
      assert s.history[i].commit in Commits(s.history);
    }
  }

  lemma ProcessHistory(setup: Setup, s: State, raw: Raw)
    requires Square(s.belief, setup.n) && HistoryExact(s)
    ensures HistoryExact(Process(setup, s, raw).0)
    ensures var (after, outcome) := Process(setup, s, raw);
            outcome.Handled? ==> after.incomingStep == if outcome.replayed then s.incomingStep else s.incomingStep + 1
  {
    hide Fuse, Exclude, Commits, HistoryExact;
    if raw.WellFormed() {
      var m := raw.message;
      if m.commit !in s.seen && m.fromPolice && m.step == s.incomingStep + 1 {
        FiledExact(s, m);
        SameHistory(Filed(s, m), Process(setup, s, raw).0);
      } else {
        SameHistory(s, Process(setup, s, raw).0);
      }
    }
  }

  lemma SameHistory(s: State, t: State)
    requires HistoryExact(s) && t.history == s.history && t.seen == s.seen && t.incomingStep == s.incomingStep
    ensures HistoryExact(t)
  {
  }

  /** A repeated commit is filed as a dispute and changes nothing else; nothing but a repeat is treated so. */
  lemma ReplayOnlyDisputes(setup: Setup, s: State, raw: Raw)
    requires Square(s.belief, setup.n)
    ensures var (after, outcome) := Process(setup, s, raw);
            (outcome.Handled? && outcome.replayed <==> raw.WellFormed() && raw.message.commit in s.seen) &&
            (outcome.Handled? && outcome.replayed ==>
               after == s.(disputes := s.disputes + [DisputeText(raw.message.step)]) && outcome.result.None?)
  {
    hide Fuse, Exclude;
  }

  lemma TakeTurnCounts(setup: Setup, s: State, input: TurnInput)
    requires LogKept(setup, s) && HistoryExact(s) && Running(s)
    requires s.own.steps == s.incomingStep && (s.own.steps == 0 || s.own.steps < setup.survivalThreshold)
    ensures Counted(setup, TakeTurn(setup, s, input))
  {
    hide LogKept, HistoryExact, Decision, Seal, StepPayload;
    SameHistory(s, TakeTurn(setup, s, input));
    if input.gate.Proceed? {
      ActCounts(s.own, Decision(setup, s, input.choosing));
    }
  }

  lemma ActCounts(own: Own, decision: Action)
    ensures own.Act(decision).steps == own.steps + 1
  {
  }

  lemma PassCounts(setup: Setup, s: State, round: Round)
    requires Square(s.belief, setup.n) && LogKept(setup, s) && Counted(setup, s)
    ensures Counted(setup, Pass(setup, s, round))
  {
    hide LogKept, HistoryExact, Process, TakeTurn;
    if Running(s) && (round.stopped || round.incoming.None?) {
      SameHistory(s, Pass(setup, s, round));
    }
    if Running(s) && !round.stopped && round.incoming.Some? {
      var raw := round.incoming.value;
      ProcessHistory(setup, s, raw);
      ProcessFrame(setup, s, raw);
      ReplayOnlyDisputes(setup, s, raw);
      var (after, outcome) := Receive(setup, s, raw);
      SameHistory(Process(setup, s, raw).0, after);
      if Running(after) && !outcome.replayed {
        ReceiveLogKept(setup, s, raw);
        TakeTurnCounts(setup, after, round.turn);
      }
    }
  }

  lemma ReceiveLogKept(setup: Setup, s: State, raw: Raw)
    requires Square(s.belief, setup.n) && LogKept(setup, s)
    ensures LogKept(setup, Receive(setup, s, raw).0)
  {
    hide Truthful, RecordTells, AuditReport, Process;
    ProcessFrame(setup, s, raw);
    TruthfulIgnoresBarriers(setup.start, s.own, Receive(setup, s, raw).0.own.barriers);
  }

  /** At every loop head the turn counters agree and the history is the Police's steps 1..n with distinct commits. */
  lemma {:induction false} EveryRunCounts(setup: Setup, opening: TurnInput, rounds: seq<Round>)
    requires InBounds(setup.start, setup.n)
    ensures Counted(setup, LoopHead(setup, opening, rounds))
    ensures var s := LoopHead(setup, opening, rounds);
            |s.records| == |s.own.log| == s.own.steps &&
            (Running(s) ==> s.own.steps == s.incomingStep + 1 == |s.history| + 1)
    decreases |rounds|
  {
    hide Pass, TakeTurn, AuditReport, RecordTells;
    EveryRunAudits(setup, opening, rounds);
    if rounds == [] {
      InitialLogKept(setup);
      assert Initial(setup).seen == Commits(Initial(setup).history);
      TakeTurnCounts(setup, Initial(setup), opening);
    } else {
      var front := rounds[..|rounds| - 1];
      EveryRunAudits(setup, opening, front);
      EveryRunCounts(setup, opening, front);
      PassCounts(setup, LoopHead(setup, opening, front), rounds[|rounds| - 1]);
    }
  }
}

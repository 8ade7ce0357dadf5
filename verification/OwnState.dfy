/** The Thief's private state and its per-turn log. */
module OwnState {
  import opened Board
  import opened Strategy

  /** The text form under which an action is logged and sealed. */
  function ActionText(action: Action): string {
    match action
    case Hold => "HOLD:-"
    case MoveTo(N) => "MOVE:N"
    case MoveTo(S) => "MOVE:S"
    case MoveTo(E) => "MOVE:E"
    case MoveTo(W) => "MOVE:W"
  }

  datatype LogEntry = LogEntry(step: nat, position: Cell, move: string, uniqueCells: nat)

  /** The value of the state object. */
  datatype Own = Own(n: nat, position: Cell, visited: set<Cell>, barriers: set<Cell>, steps: nat, log: seq<LogEntry>)
  {
    function Record(action: Action): Own {
      this.(steps := steps + 1, log := log + [LogEntry(steps + 1, position, ActionText(action), |visited|)])
    }

    predicate Legal(action: Action) {
      action.Hold? || Step(n, position, action.direction, barriers).Some?
    }

    /** A legal action moves and is logged; an illegal one changes nothing. */
    function Apply(action: Action): Own {
      if action.Hold? then Record(action)
      else
        var target := Step(n, position, action.direction, barriers);
        if target.None? then this
        else this.(position := target.value, visited := visited + {target.value}).Record(action)
    }

    /** What a turn does with a decision: an illegal one is replaced by holding still. */
    function Act(decision: Action): Own {
      if Legal(decision) then Apply(decision) else Apply(Hold)
    }

    function NoteBarrier(cell: Cell): Own {
      this.(barriers := barriers + {cell})
    }

    predicate IsConfined() {
      Confined(n, position, barriers)
    }
  }

  function Start(cell: Cell, n: nat): Own {
    Own(n, cell, {cell}, {}, 0, [])
  }

  class OwnGameState {
    const n: nat
    var position: Cell
    var visited: set<Cell>
    var barriers: set<Cell>
    var stepNumber: nat
    var log: seq<LogEntry>

    ghost function Model(): Own
      reads this
    {
      Own(n, position, visited, barriers, stepNumber, log)
    }

    constructor (start: Cell, boardSize: nat)
      requires InBounds(start, boardSize)
      ensures Model() == Start(start, boardSize)
    {
      n, position, visited, barriers, stepNumber, log := boardSize, start, {start}, {}, 0, [];
    }

    method NoteBarrier(cell: Cell)
      modifies this
      ensures Model() == old(Model()).NoteBarrier(cell)
    {
      barriers := barriers + {cell};
    }

    method ApplyMove(action: Action) returns (ok: bool)
      modifies this
      ensures ok == old(Model()).Legal(action)
      ensures Model() == old(Model()).Apply(action)
    {
      match action {
        case MoveTo(direction) =>
          var target := Step(n, position, direction, barriers);
          if target.None? {
            return false;
          }
          position := target.value;
          visited := visited + {target.value};
        case Hold =>
      }
      RecordMove(action);
      return true;
    }

    method RecordMove(action: Action)
      modifies this
      ensures Model() == old(Model()).Record(action)
    {
      stepNumber := stepNumber + 1;
      log := log + [LogEntry(stepNumber, position, ActionText(action), |visited|)];
    }
  }

  // ----- replaying the log -----

  /** The cell one logged move leads to, read from its text alone; rows are counted southwards. */
  function ReplayMove(from: Cell, move: string): Cell {
    if move == "MOVE:N" then (from.0 - 1, from.1)
    else if move == "MOVE:S" then (from.0 + 1, from.1)
    else if move == "MOVE:E" then (from.0, from.1 + 1)
    else if move == "MOVE:W" then (from.0, from.1 - 1)
    else from
  }

  /** Folding the first k logged moves from the start cell. */
  function Replay(start: Cell, log: seq<LogEntry>, k: nat): Cell
    requires k <= |log|
  {
    if k == 0 then start else ReplayMove(Replay(start, log, k - 1), log[k - 1].move)
  }

  /** The five texts a move may have. */
  const MOVES: seq<string> := ["MOVE:N", "MOVE:S", "MOVE:E", "MOVE:W", "HOLD:-"]

  ghost predicate LogExact(start: Cell, log: seq<LogEntry>) {
    forall i :: 0 <= i < |log| ==>
      log[i].step == i + 1 && log[i].position == Replay(start, log, i + 1) && log[i].move in MOVES &&
      log[i].uniqueCells == |Seen(start, log, i + 1)|
  }

  /** The start cell and the cells of the first k entries. */
  ghost function Seen(start: Cell, log: seq<LogEntry>, k: nat): set<Cell>
    requires k <= |log|
  {
    {start} + LogCells(log[..k])
  }

  ghost function LogCells(log: seq<LogEntry>): set<Cell> {
    set i | 0 <= i < |log| :: log[i].position
  }

  /** The private state tells the truth about itself. */
  ghost predicate Truthful(start: Cell, own: Own) {
    own.steps == |own.log| && LogExact(start, own.log) &&
    own.position == Replay(start, own.log, |own.log|) &&
    own.visited == {start} + LogCells(own.log) &&
    InBounds(own.position, own.n)
  }

  lemma {:induction false} ReplayPrefix(start: Cell, log: seq<LogEntry>, entry: LogEntry, k: nat)
    requires k <= |log|
    ensures Replay(start, log + [entry], k) == Replay(start, log, k)
  {
    if k > 0 {
      ReplayPrefix(start, log, entry, k - 1);
    }
  }

  lemma LogExtended(start: Cell, log: seq<LogEntry>, entry: LogEntry)
    requires LogExact(start, log) && entry.step == |log| + 1 && entry.move in MOVES
    requires entry.position == ReplayMove(Replay(start, log, |log|), entry.move)
    requires entry.uniqueCells == |Seen(start, log + [entry], |log| + 1)|
    ensures LogExact(start, log + [entry]) && Replay(start, log + [entry], |log| + 1) == entry.position
  {
    hide ReplayMove, Seen, MOVES;
    forall i | 0 <= i <= |log|
      ensures Replay(start, log + [entry], i) == Replay(start, log, i)
      ensures Seen(start, log + [entry], i) == Seen(start, log, i)
    {
      ReplayPrefix(start, log, entry, i);
      SeenPrefix(start, log, entry, i);
    }
  }

  lemma SeenPrefix(start: Cell, log: seq<LogEntry>, entry: LogEntry, k: nat)
    requires k <= |log|
    ensures Seen(start, log + [entry], k) == Seen(start, log, k)
  {
    hide LogCells;
    assert (log + [entry])[..k] == log[..k];
  }

  lemma CellsExtended(log: seq<LogEntry>, entry: LogEntry)
    ensures LogCells(log + [entry]) == LogCells(log) + {entry.position}
  {
    var longer := log + [entry];
    assert longer[|log|] == entry;
    forall cell | cell in LogCells(log)
      ensures cell in LogCells(longer)
    {
      var i :| 0 <= i < |log| && log[i].position == cell;
      assert longer[i].position == cell;
    }
  }

  lemma TextListed(action: Action)
    ensures ActionText(action) in MOVES
  {
    assert MOVES[0] == "MOVE:N" && MOVES[1] == "MOVE:S" && MOVES[2] == "MOVE:E" && MOVES[3] == "MOVE:W" &&
           MOVES[4] == "HOLD:-";
  }

  lemma RecordTruthful(start: Cell, own: Own, position: Cell, action: Action)
    requires Truthful(start, own) && InBounds(position, own.n)
    requires position == ReplayMove(own.position, ActionText(action))
    ensures Truthful(start, own.(position := position, visited := own.visited + {position}).Record(action))
  {
    hide LogExact, LogCells, Replay, ReplayMove, ActionText;
    var after := own.(position := position, visited := own.visited + {position}).Record(action);
    var entry := LogEntry(own.steps + 1, position, ActionText(action), |after.visited|);
    assert after.log == own.log + [entry];
    TextListed(action);
    CellsExtended(own.log, entry);
    assert (own.log + [entry])[..|own.log| + 1] == own.log + [entry];
    assert after.visited == Seen(start, own.log + [entry], |own.log| + 1);
    LogExtended(start, own.log, entry);
  }

  lemma PositionVisited(start: Cell, own: Own)
    requires Truthful(start, own)
    ensures own.position in own.visited
  {
    if |own.log| > 0 {
      assert own.log[|own.log| - 1].position == own.position;
    }
  }

  lemma TruthfulOnBoard(start: Cell, own: Own)
    requires Truthful(start, own)
    ensures InBounds(own.position, own.n)
  {
  }

  /** The logged text of a legal step leads to the cell it leads to. */
  lemma TextReplays(own: Own, decision: Action)
    requires decision.MoveTo? && own.Legal(decision)
    ensures var target := Step(own.n, own.position, decision.direction, own.barriers).value;
            target == ReplayMove(own.position, ActionText(decision)) && InBounds(target, own.n)
  {
  }

  lemma HoldReplays(position: Cell)
    ensures ReplayMove(position, ActionText(Hold)) == position
  {
  }

  /** Whatever is decided, acting appends exactly one truthful entry. */
  lemma ActTruthful(start: Cell, own: Own, decision: Action)
    requires Truthful(start, own)
    ensures Truthful(start, own.Act(decision))
    ensures own.Act(decision).steps == own.steps + 1 && own.Act(decision).barriers == own.barriers &&
            own.Act(decision).n == own.n
  {
    hide Truthful, ReplayMove, ActionText, Step;
    TruthfulOnBoard(start, own);
    PositionVisited(start, own);
    if decision.MoveTo? && own.Legal(decision) {
      TextReplays(own, decision);
      RecordTruthful(start, own, Step(own.n, own.position, decision.direction, own.barriers).value, decision);
    } else {
      HoldReplays(own.position);
      RecordTruthful(start, own, own.position, Hold);
      assert own.visited + {own.position} == own.visited;
    }
  }

  // ----- never boxed in -----

  /** On an open cell with an open neighbour. */
  ghost predicate Free(own: Own) {
    Open(own.position, own.n, own.barriers) && !own.IsConfined()
  }

  /** A turn keeps the Thief free: after a step it can always step back. */
  lemma ActStaysFree(own: Own, decision: Action)
    requires Free(own)
    ensures Free(own.Act(decision))
  {
    ConfinedExact(own.n, own.position, own.barriers);
    if decision.MoveTo? && own.Legal(decision) {
      var target := Step(own.n, own.position, decision.direction, own.barriers).value;
      ConfinedExact(own.n, target, own.barriers);
      assert Adjacent(target, own.position);
    }
  }

  /** On an empty board of size at least two nobody is confined. */
  lemma StartsFree(start: Cell, n: nat)
    requires n >= 2 && InBounds(start, n)
    ensures Free(Start(start, n)) && Truthful(start, Start(start, n))
  {
    ConfinedExact(n, start, {});
    var t := if start.0 > 0 then (start.0 - 1, start.1) else (start.0 + 1, start.1);
    assert Adjacent(start, t) && Open(t, n, {});
  }

  function Parity(cell: Cell): int {
    (cell.0 + cell.1) % 2
  }

  /** A legal step changes the colour of the cell. */
  lemma StepFlipsParity(own: Own, decision: Action)
    requires decision.MoveTo? && own.Legal(decision)
    ensures Parity(own.Act(decision).position) == 1 - Parity(own.position)
  {
  }
}

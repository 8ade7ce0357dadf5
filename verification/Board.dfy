/** Geometry of an N x N board with single orthogonal steps and known barriers. */
module Board {

  datatype Option<+T> = None | Some(value: T)

  type Cell = (int, int)

  datatype Direction = N | S | E | W

  /** The fixed iteration order of the four directions. */
  const DIRECTIONS: seq<Direction> := [N, S, E, W]

  /** The rows of the direction table, row index growing to the south. */
  function Towards(origin: Cell, d: Direction): Cell {
    match d
    case N => (origin.0 - 1, origin.1)
    case S => (origin.0 + 1, origin.1)
    case E => (origin.0, origin.1 + 1)
    case W => (origin.0, origin.1 - 1)
  }

  predicate InBounds(cell: Cell, n: int) {
    0 <= cell.0 < n && 0 <= cell.1 < n
  }

  predicate Open(cell: Cell, n: int, barriers: set<Cell>) {
    InBounds(cell, n) && cell !in barriers
  }

  function Abs(x: int): int { if x < 0 then -x else x }

  function Distance(a: Cell, b: Cell): int {
    Abs(a.0 - b.0) + Abs(a.1 - b.1)
  }

  /** The cell reached by one step, unless it is off the board or walled. */
  function Step(n: int, origin: Cell, d: Direction, barriers: set<Cell>): Option<Cell> {
    var target := Towards(origin, d);
    if !InBounds(target, n) then None
    else if target in barriers then None
    else Some(target)
  }

  datatype Move = Move(direction: Direction, target: Cell)

  function LegalMovesFrom(n: int, origin: Cell, barriers: set<Cell>, directions: seq<Direction>): seq<Move> {
    if directions == [] then []
    else
      var rest := LegalMovesFrom(n, origin, barriers, directions[1..]);
      var step := Step(n, origin, directions[0], barriers);
      if step.Some? then [Move(directions[0], step.value)] + rest else rest
  }

  /** Every legal single step from origin, in direction order. */
  function LegalMoves(n: int, origin: Cell, barriers: set<Cell>): seq<Move> {
    LegalMovesFrom(n, origin, barriers, DIRECTIONS)
  }

  function Neighbors(n: int, cell: Cell, barriers: set<Cell>): seq<Cell> {
    Targets(LegalMoves(n, cell, barriers))
  }

  function Targets(moves: seq<Move>): (cells: seq<Cell>)
    ensures |cells| == |moves|
    ensures forall i :: 0 <= i < |moves| ==> cells[i] == moves[i].target
  {
    if moves == [] then [] else [moves[0].target] + Targets(moves[1..])
  }

  predicate LegalMove(m: Move, n: int, origin: Cell, barriers: set<Cell>) {
    m.target == Towards(origin, m.direction) && Open(m.target, n, barriers)
  }

  lemma {:induction false} LegalMovesFromExact(n: int, origin: Cell, barriers: set<Cell>, directions: seq<Direction>)
    ensures forall m :: m in LegalMovesFrom(n, origin, barriers, directions) <==>
              m.direction in directions && LegalMove(m, n, origin, barriers)
  {
    if directions != [] {
      LegalMovesFromExact(n, origin, barriers, directions[1..]);
      assert directions == [directions[0]] + directions[1..];
    }
  }

  /** The list of legal moves holds exactly the steps onto open cells. */
  lemma LegalMovesExact(n: int, origin: Cell, barriers: set<Cell>)
    ensures forall m :: m in LegalMoves(n, origin, barriers) <==> LegalMove(m, n, origin, barriers)
  {
    LegalMovesFromExact(n, origin, barriers, DIRECTIONS);
    forall d: Direction
      ensures d in DIRECTIONS
    {
      assert d == DIRECTIONS[match d case N => 0 case S => 1 case E => 2 case W => 3];
    }
  }

  predicate Adjacent(a: Cell, b: Cell) {
    Distance(a, b) == 1
  }

  lemma AdjacentIsStep(a: Cell, b: Cell)
    ensures Adjacent(a, b) <==> exists d: Direction :: Towards(a, d) == b
  {
    if Adjacent(a, b) {
      var d := if b.0 < a.0 then N else if b.0 > a.0 then S else if b.1 > a.1 then E else W;
      assert Towards(a, d) == b;
    }
  }

  /** The neighbours of a cell are exactly the open cells at distance one. */
  lemma NeighborsExact(n: int, cell: Cell, barriers: set<Cell>)
    ensures forall t :: t in Neighbors(n, cell, barriers) <==> Adjacent(cell, t) && Open(t, n, barriers)
  {
    LegalMovesExact(n, cell, barriers);
    var moves := LegalMoves(n, cell, barriers);
    forall t
      ensures t in Neighbors(n, cell, barriers) <==> Adjacent(cell, t) && Open(t, n, barriers)
    {
      AdjacentIsStep(cell, t);
      if t in Neighbors(n, cell, barriers) {
        var i :| 0 <= i < |moves| && moves[i].target == t;
        assert moves[i] in moves;
      }
      if Adjacent(cell, t) && Open(t, n, barriers) {
        var d: Direction :| Towards(cell, d) == t;
        assert Move(d, t) in moves;
        var i :| 0 <= i < |moves| && moves[i] == Move(d, t);
        assert Targets(moves)[i] == t;
      }
    }
  }

  predicate Confined(n: int, position: Cell, barriers: set<Cell>) {
    LegalMoves(n, position, barriers) == []
  }

  lemma ConfinedExact(n: int, position: Cell, barriers: set<Cell>)
    ensures Confined(n, position, barriers) <==> forall t: Cell :: Adjacent(position, t) ==> !Open(t, n, barriers)
  {
    NeighborsExact(n, position, barriers);
    var moves := LegalMoves(n, position, barriers);
    if moves != [] {
      assert Targets(moves)[0] in Neighbors(n, position, barriers);
    }
  }
}

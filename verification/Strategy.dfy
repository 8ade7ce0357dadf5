/**
 * The shipped Thief brains: the heuristic pick, the mobility pick, the ranked shortlist and the constrained model
 * choice.
 */
module Strategy {
  import opened Board
  import opened Grids
  import opened Belief
  import FloodFill
  import Wire

  datatype Action = MoveTo(direction: Direction) | Hold

  /** What a brain may look at: the Thief's own knowledge and the belief. */
  datatype View = View(n: nat, position: Cell, visited: set<Cell>, barriers: set<Cell>, belief: Grid)
  {
    function Moves(): seq<Move> {
      LegalMoves(n, position, barriers)
    }

    function Threat(): Cell {
      MostLikely(belief, n)
    }
  }

  // ----- first maximum under a lexicographic key -----

  /** Tuple comparison: the first difference decides. */
  predicate KeyGreater(a: seq<real>, b: seq<real>) {
    if a == [] then false
    else if b == [] then true
    else a[0] > b[0] || (a[0] == b[0] && KeyGreater(a[1..], b[1..]))
  }

  /** The earliest of the moves whose key no other move exceeds. */
  function FirstMax(moves: seq<Move>, key: Move -> seq<real>): Move
    requires moves != []
  {
    if |moves| == 1 then moves[0]
    else
      var best := FirstMax(moves[..|moves| - 1], key);
      if KeyGreater(key(moves[|moves| - 1]), key(best)) then moves[|moves| - 1] else best
  }

  lemma {:induction false} FirstMaxChosen(moves: seq<Move>, key: Move -> seq<real>)
    requires moves != []
    ensures FirstMax(moves, key) in moves
  {
    if |moves| > 1 {
      FirstMaxChosen(moves[..|moves| - 1], key);
    }
  }

  /** Keys that compare alike on the moves pick the same move. */
  lemma {:induction false} FirstMaxAgrees(moves: seq<Move>, key: Move -> seq<real>, other: Move -> seq<real>)
    requires moves != []
    requires forall a, b :: a in moves && b in moves ==> KeyGreater(key(a), key(b)) == KeyGreater(other(a), other(b))
    ensures FirstMax(moves, key) == FirstMax(moves, other)
  {
    if |moves| > 1 {
      FirstMaxAgrees(moves[..|moves| - 1], key, other);
      FirstMaxChosen(moves[..|moves| - 1], key);
    }
  }

  function Flag(b: bool): real { if b then 1.0 else 0.0 }

  // ----- the two heuristics -----

  /** Farthest from the believed Police, then unvisited. */
  function ThiefPick(view: View): Move
    requires view.Moves() != []
  {
    FirstMax(view.Moves(), (m: Move) => [Distance(m.target, view.Threat()) as real, Flag(m.target !in view.visited)])
  }

  function MobilityKey(view: View, area: Cell -> nat, m: Move): seq<real> {
    [Distance(m.target, view.Threat()) as real, -At(view.belief, m.target), area(m.target) as real,
     Flag(m.target !in view.visited), -(m.target.0 as real), -(m.target.1 as real)]
  }

  /** The mobility key without its reachable-area component. */
  function PlainKey(view: View, m: Move): seq<real> {
    [Distance(m.target, view.Threat()) as real, -At(view.belief, m.target),
     Flag(m.target !in view.visited), -(m.target.0 as real), -(m.target.1 as real)]
  }

  ghost function TrueArea(view: View): Cell -> nat {
    (cell: Cell) => FloodFill.Area(view.n, view.barriers, cell)
  }

  /** Distance, low risk, reachable area, novelty, then the north-western-most target. */
  ghost function MobilityPick(view: View): Move
    requires view.Moves() != []
  {
    FirstMax(view.Moves(), (m: Move) => MobilityKey(view, TrueArea(view), m))
  }

  lemma FirstMaxSingle(moves: seq<Move>, key: Move -> seq<real>)
    requires |moves| == 1
    ensures FirstMax(moves, key) == moves[0]
  {
  }

  lemma FirstMaxNext(moves: seq<Move>, key: Move -> seq<real>, i: nat)
    requires 0 < i < |moves|
    ensures var best := FirstMax(moves[..i], key);
            FirstMax(moves[..i + 1], key) == if KeyGreater(key(moves[i]), key(best)) then moves[i] else best
  {
    assert moves[..i + 1][..i] == moves[..i];
  }

  /** The mobility brain computes its key with the flood-fill loop. */
  method PickByMobility(view: View) returns (best: Move)
    requires view.Moves() != []
    ensures best == MobilityPick(view)
  {
    hide KeyGreater, FirstMax, LegalMoves, MostLikely;
    ghost var key := (m: Move) => MobilityKey(view, TrueArea(view), m);
    var moves := view.Moves();
    best := moves[0];
    var bestArea := FloodFill.ReachableArea(view.n, best.target, view.barriers);
    FirstMaxSingle(moves[..1], key);
    for i := 1 to |moves|
      invariant best == FirstMax(moves[..i], key)
      invariant bestArea == FloodFill.Area(view.n, view.barriers, best.target)
    {
      var area := FloodFill.ReachableArea(view.n, moves[i].target, view.barriers);
      FirstMaxNext(moves, key, i);
      if KeyGreater(MobilityKey(view, (c: Cell) => area, moves[i]), MobilityKey(view, (c: Cell) => bestArea, best)) {
        best, bestArea := moves[i], area;
      }
    }
    assert moves[..|moves|] == moves;
  }

  // ----- ranked candidates -----

  /** The tactical value of a target, with the reachable area weighted as given. */
  ghost function Utility(view: View, areaWeight: real, target: Cell): real {
    4.0 * Distance(target, view.Threat()) as real + areaWeight * FloodFill.Area(view.n, view.barriers, target) as real
    + 1.5 * Flag(target !in view.visited) - 20.0 * At(view.belief, target)
  }

  const AREA_WEIGHT: real := 0.15

  /** Direction names in text order. */
  function NameOrder(d: Direction): nat {
    match d case E => 0 case N => 1 case S => 2 case W => 3
  }

  datatype Candidate = Candidate(actionId: string, action: Action, target: Cell, utility: real)

  predicate Ahead(a: Candidate, b: Candidate) {
    a.utility > b.utility || (a.utility == b.utility && SortName(a.action) < SortName(b.action))
  }

  /** Rank of (move type, direction) in text order: HOLD sorts before any MOVE. */
  function SortName(a: Action): nat {
    match a case Hold => 0 case MoveTo(d) => 1 + NameOrder(d)
  }

  function Insert(c: Candidate, sorted: seq<Candidate>): seq<Candidate> {
    if sorted == [] then [c]
    else if Ahead(c, sorted[|sorted| - 1]) then Insert(c, sorted[..|sorted| - 1]) + [sorted[|sorted| - 1]]
    else sorted + [c]
  }

  /** Best first; equal keys keep their order. */
  function Sort(cs: seq<Candidate>): seq<Candidate> {
    if cs == [] then [] else Insert(cs[|cs| - 1], Sort(cs[..|cs| - 1]))
  }

  function Numbered(cs: seq<Candidate>): seq<Candidate> {
    seq(|cs|, i requires 0 <= i < |cs| => cs[i].(actionId := "A" + Wire.Decimal(i)))
  }

  ghost function MoveCandidates(view: View, areaWeight: real, moves: seq<Move>): seq<Candidate> {
    seq(|moves|, i requires 0 <= i < |moves| =>
      Candidate("", MoveTo(moves[i].direction), moves[i].target, Utility(view, areaWeight, moves[i].target)))
  }

  ghost function Ranked(view: View, areaWeight: real): seq<Candidate> {
    var cs := MoveCandidates(view, areaWeight, view.Moves());
    Numbered(Sort(if cs == [] then [Candidate("", Hold, view.position, 0.0)] else cs))
  }

  method RankedCandidates(view: View) returns (candidates: seq<Candidate>)
    ensures candidates == Ranked(view, 0.15)
  {
    hide FloodFill.Area, Sort, LegalMoves;
    var moves := view.Moves();
    candidates := [];
    for i := 0 to |moves|
      invariant candidates == MoveCandidates(view, AREA_WEIGHT, moves[..i])
    {
      var area := FloodFill.ReachableArea(view.n, moves[i].target, view.barriers);
      var utility := 4.0 * Distance(moves[i].target, view.Threat()) as real + AREA_WEIGHT * area as real
                     + 1.5 * Flag(moves[i].target !in view.visited) - 20.0 * At(view.belief, moves[i].target);
      candidates := candidates + [Candidate("", MoveTo(moves[i].direction), moves[i].target, utility)];
    }
    assert moves[..|moves|] == moves;
    if candidates == [] {
      candidates := [Candidate("", Hold, view.position, 0.0)];
    }
    candidates := Numbered(Sort(candidates));
  }

  // ----- the constrained model choice -----

  /** Whatever the model does: any failure at all, or any well-formed answer. */
  datatype Reply = Failed(reason: string) | Answer(actionId: string, confidence: real)

  datatype Choice = Choice(action: Action, source: string, actionId: string, fallbackReason: string)

  function Clip(x: int, low: int, high: int): int {
    if x < low then low else if x > high then high else x
  }

  function Find(cs: seq<Candidate>, actionId: string): Option<Candidate> {
    if cs == [] then None
    else if cs[|cs| - 1].actionId == actionId then Some(cs[|cs| - 1])
    else Find(cs[..|cs| - 1], actionId)
  }

  function Fallback(action: Action, reason: string): Choice {
    Choice(action, "heuristic_fallback", "", reason)
  }

  /** Accept only a confident answer that names a shortlisted action; otherwise keep the heuristic. */
  function Choose(candidates: seq<Candidate>, fallback: Action, size: int, minConfidence: real, reply: Reply): Choice {
    var length := Clip(size, 1, 4);
    var shortlist := if |candidates| <= length then candidates else candidates[..length];
    match reply
    case Failed(reason) => Fallback(fallback, reason)
    case Answer(actionId, confidence) =>
      var selected := Find(shortlist, actionId);
      if selected.None? then Fallback(fallback, "unknown_action")
      else if confidence < Clamp(minConfidence) then Fallback(fallback, "low_confidence")
      else Choice(selected.value.action, "llm", actionId, "")
  }

  // ----- a whole decision -----

  datatype Brain = Evader | Mobility

  datatype Tactics = Tactics(size: int, minConfidence: real)

  ghost function HeuristicAction(brain: Brain, view: View): Action {
    if view.Moves() == [] then Hold
    else MoveTo((match brain case Evader => ThiefPick(view) case Mobility => MobilityPick(view)).direction)
  }

  ghost function Decide(brain: Brain, tactics: Option<Tactics>, view: View, reply: Reply): Action {
    var heuristic := HeuristicAction(brain, view);
    match tactics
    case None => heuristic
    case Some(t) => Choose(Ranked(view, AREA_WEIGHT), heuristic, t.size, t.minConfidence, reply).action
  }

  method DecideAction(brain: Brain, tactics: Option<Tactics>, view: View, reply: Reply) returns (action: Action)
    ensures action == Decide(brain, tactics, view, reply)
  {
    hide Choose, ThiefPick, MobilityPick, Ranked;
    if view.Moves() == [] {
      action := Hold;
    } else {
      var pick;
      match brain {
        case Evader => pick := ThiefPick(view);
        case Mobility => pick := PickByMobility(view);
      }
      action := MoveTo(pick.direction);
    }
    if tactics.Some? {
      var candidates := RankedCandidates(view);
      action := Choose(candidates, action, tactics.value.size, tactics.value.minConfidence, reply).action;
    }
  }
}

/** Soft evidence from the coarse zone a verbal hint names. */
module Hints {
  import opened Board
  import opened Belief

  datatype Zone = North | South | East | West | Center

  function AbsReal(x: real): real { if x < 0.0 then -x else x }

  function Span(n: nat): real {
    if n <= 2 then 1.0 else (n - 1) as real
  }

  /** The multiplier of one cell before the lower cut at one quarter. */
  function ZoneScore(zone: Zone, n: nat, cell: Cell): real {
    match zone
    case North => 1.0 + (n - 1 - cell.0) as real / Span(n)
    case South => 1.0 + cell.0 as real / Span(n)
    case East => 1.0 + cell.1 as real / Span(n)
    case West => 1.0 + (n - 1 - cell.1) as real / Span(n)
    case Center =>
      var midpoint := (n - 1) as real / 2.0;
      2.0 - (AbsReal(cell.0 as real - midpoint) + AbsReal(cell.1 as real - midpoint)) / Span(n)
  }

  function CutScore(zone: Zone, n: nat, cell: Cell): real {
    var score := ZoneScore(zone, n, cell);
    if score < 0.25 then 0.25 else score
  }

  /** The evidence for a hint that names this zone, or no evidence at all. */
  function Evidence(zone: Option<Zone>, n: nat): map<Cell, real> {
    if zone.None? then map[]
    else map r, c | 0 <= r < n && 0 <= c < n :: (r, c) := CutScore(zone.value, n, (r, c))
  }

  /** The nested loops that fill the evidence table. */
  method InferLikelihoods(zone: Option<Zone>, n: nat) returns (evidence: map<Cell, real>)
    ensures evidence == Evidence(zone, n)
  {
    hide CutScore;
    evidence := map[];
    if zone.None? {
      return;
    }
    var row := 0;
    while row < n
      invariant 0 <= row <= n
      invariant forall cell :: cell in evidence <==> InBounds(cell, n) && cell.0 < row
      invariant forall cell :: cell in evidence ==> evidence[cell] == CutScore(zone.value, n, cell)
    {
      var column := 0;
      while column < n
        invariant 0 <= column <= n
        invariant forall cell :: cell in evidence <==> InBounds(cell, n) && RowMajorBefore(cell, (row, column))
        invariant forall cell :: cell in evidence ==> evidence[cell] == CutScore(zone.value, n, cell)
      {
        evidence := evidence[(row, column) := CutScore(zone.value, n, (row, column))];
        column := column + 1;
      }
      row := row + 1;
    }
  }

  lemma RatioWithinOne(x: real, span: real)
    requires 0.0 <= x <= span && span > 0.0
    ensures 0.0 <= x / span <= 1.0
  {
  }

  lemma MidpointDistance(n: nat, k: int)
    requires 0 <= k < n
    ensures 0.0 <= AbsReal(k as real - (n - 1) as real / 2.0) <= (n - 1) as real / 2.0
  {
  }

  /** On the board every zone multiplies by something between one and two, so the cut never bites. */
  lemma ScoreRange(zone: Zone, n: nat, cell: Cell)
    requires InBounds(cell, n)
    ensures 1.0 <= ZoneScore(zone, n, cell) <= 2.0
    ensures CutScore(zone, n, cell) == ZoneScore(zone, n, cell)
  {
    match zone {
      case North => RatioWithinOne((n - 1 - cell.0) as real, Span(n));
      case South => RatioWithinOne(cell.0 as real, Span(n));
      case East => RatioWithinOne(cell.1 as real, Span(n));
      case West => RatioWithinOne((n - 1 - cell.1) as real, Span(n));
      case Center =>
        MidpointDistance(n, cell.0);
        MidpointDistance(n, cell.1);
        var midpoint := (n - 1) as real / 2.0;
        RatioWithinOne(AbsReal(cell.0 as real - midpoint) + AbsReal(cell.1 as real - midpoint), Span(n));
    }
  }

  /** Whatever a hint says, each board cell is weighed by a factor between one and two. */
  lemma HintFactorRange(zone: Option<Zone>, n: nat, cell: Cell)
    requires InBounds(cell, n)
    ensures 1.0 <= Likelihood(Evidence(zone, n), cell) <= 2.0
  {
    hide CutScore, ZoneScore;
    if zone.Some? {
      ScoreRange(zone.value, n, cell);
      assert (cell.0, cell.1) in Evidence(zone, n);
    }
  }
}

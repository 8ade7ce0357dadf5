/** The Thief's belief about the Police cell: each update as a value. */
module Belief {
  import opened Board
  import opened Grids
  import Wire

  const EPSILON: real := 0.000000001

  function At(g: Grid, cell: Cell): real {
    if 0 <= cell.0 < |g| && 0 <= cell.1 < |g[cell.0]| then g[cell.0][cell.1] else 0.0
  }

  function UniformMass(n: nat): real {
    if n == 0 then 0.0 else 1.0 / (n as real * n as real)
  }

  function Uniform(n: nat): (h: Grid)
    ensures Square(h, n)
  {
    Tabulate(n, (r: int, c: int) => UniformMass(n))
  }

  /** Every cell divided by the sum, or the uniform grid when almost no mass is left. */
  function Normalize(g: Grid, n: nat): (h: Grid)
    ensures Square(h, n)
  {
    var total := Total(g);
    if total < EPSILON then Uniform(n)
    else Tabulate(n, (r: int, c: int) => if total == 0.0 then 0.0 else At(g, (r, c)) / total)
  }

  function Leak(g: Grid, n: nat, leak: real): (h: Grid)
    ensures Square(g, n) ==> Square(h, n)
  {
    if leak <= 0.0 then g
    else Tabulate(n, (r: int, c: int) => (1.0 - leak) * At(g, (r, c)) + leak * UniformMass(n))
  }

  // ----- prediction -----

  /** Staying put and the four orthogonal steps, in scan order. */
  const OFFSETS: seq<(int, int)> := [(0, 0), (-1, 0), (1, 0), (0, -1), (0, 1)]

  function Shift(cell: Cell, offset: (int, int)): Cell {
    (cell.0 + offset.0, cell.1 + offset.1)
  }

  function ReachFrom(cell: Cell, n: nat, offsets: seq<(int, int)>): seq<Cell> {
    if offsets == [] then []
    else
      var rest := ReachFrom(cell, n, offsets[1..]);
      if InBounds(Shift(cell, offsets[0]), n) then [Shift(cell, offsets[0])] + rest else rest
  }

  /** The cells a Police at this cell may occupy one turn later. */
  function Reach(cell: Cell, n: nat): seq<Cell> {
    ReachFrom(cell, n, OFFSETS)
  }

  /** What one source cell sends to each cell it reaches; a source below EPSILON sends nothing. */
  function Share(g: Grid, n: nat, source: Cell): real {
    if InBounds(source, n) && At(g, source) >= EPSILON && Reach(source, n) != []
    then At(g, source) / |Reach(source, n)| as real
    else 0.0
  }

  /** The mass a cell collects from itself and its orthogonal neighbours. */
  function Gather(g: Grid, n: nat, t: Cell): real {
    Share(g, n, t) + Share(g, n, (t.0 - 1, t.1)) + Share(g, n, (t.0 + 1, t.1))
    + Share(g, n, (t.0, t.1 - 1)) + Share(g, n, (t.0, t.1 + 1))
  }

  function Spread(g: Grid, n: nat): (h: Grid)
    ensures Square(h, n)
  {
    Tabulate(n, (r: int, c: int) => Gather(g, n, (r, c)))
  }

  /** The mass that the spreading step does not skip. */
  function Moving(g: Grid, n: nat): (h: Grid)
    ensures Square(h, n)
  {
    Tabulate(n, (r: int, c: int) => if At(g, (r, c)) >= EPSILON then At(g, (r, c)) else 0.0)
  }

  function Diffuse(g: Grid, n: nat): (h: Grid)
    ensures Square(h, n)
  {
    Normalize(Spread(g, n), n)
  }

  // ----- scent -----

  datatype Reading = Number(intensity: real) | NotANumber

  function Clamp(x: real): real {
    if x < 0.0 then 0.0 else if x > 1.0 then 1.0 else x
  }

  /** The usable readings: malformed keys and values are skipped, later entries win. */
  function ParseReadings(entries: seq<(string, Reading)>, n: nat): map<Cell, real> {
    if entries == [] then map[]
    else
      var before := ParseReadings(entries[..|entries| - 1], n);
      var (key, value) := entries[|entries| - 1];
      var cell := Wire.ParseCell(key, n);
      if cell.Some? && value.Number? then before[cell.value := Clamp(value.intensity)] else before
  }

  ghost predicate IsPeak(readings: map<Cell, real>, peak: real) {
    (forall cell :: cell in readings ==> readings[cell] <= peak) &&
    if readings == map[] then peak == 0.0 else exists cell :: cell in readings && readings[cell] == peak
  }

  lemma {:induction false} PeakExists(readings: map<Cell, real>)
    ensures exists peak :: IsPeak(readings, peak)
    decreases |readings|
  {
    if readings == map[] {
      assert IsPeak(readings, 0.0);
    } else {
      var cell :| cell in readings;
      var rest := readings - {cell};
      PeakExists(rest);
      var peak :| IsPeak(rest, peak);
      assert forall other :: other in readings ==> other == cell || other in rest;
      if rest == map[] || peak < readings[cell] {
        assert forall other :: other in rest ==> other in rest.Keys;
        assert IsPeak(readings, readings[cell]);
      } else {
        var top :| top in rest && rest[top] == peak;
        assert top in readings && readings[top] == peak;
        assert IsPeak(readings, peak);
      }
    }
  }

  ghost function Peak(readings: map<Cell, real>): (peak: real)
    ensures IsPeak(readings, peak)
  {
    PeakExists(readings);
    var peak :| IsPeak(readings, peak);
    peak
  }

  /** How a relative reading is sharpened before it is weighed: raising it to the configured power. */
  type Raising = real -> real

  /** What every non-negative power does on the unit interval. */
  ghost predicate Raises(power: Raising) {
    power(1.0) == 1.0 && forall x: real {:trigger power(x)} :: 0.0 <= x <= 1.0 ==> 0.0 <= power(x) <= 1.0
  }

  function Power(x: real, k: nat): real {
    if k == 0 then 1.0 else x * Power(x, k - 1)
  }

  function Boost(trust: real, power: Raising, reading: real): real {
    1.0 + trust * power(reading)
  }

  function CellBoost(readings: map<Cell, real>, peak: real, trust: real, power: Raising, cell: Cell): real {
    if peak > 0.0 && cell in readings then Boost(trust, power, readings[cell] / peak) else 1.0
  }

  function Sharpen(g: Grid, n: nat, readings: map<Cell, real>, peak: real, trust: real, power: Raising): (h: Grid)
    ensures Square(h, n)
  {
    Tabulate(n, (r: int, c: int) => At(g, (r, c)) * CellBoost(readings, peak, trust, power, (r, c)))
  }

  ghost function ObserveReadings(g: Grid, n: nat, readings: map<Cell, real>, trust: real, power: Raising,
                                 leak: real): (h: Grid)
    ensures Square(h, n)
  {
    Leak(Normalize(Sharpen(g, n, readings, Peak(readings), trust, power), n), n, leak)
  }

  ghost function ObserveSmell(g: Grid, n: nat, entries: seq<(string, Reading)>, trust: real, power: Raising,
                              leak: real): (h: Grid)
    ensures Square(h, n)
  {
    ObserveReadings(g, n, ParseReadings(entries, n), trust, power, leak)
  }

  // ----- hints, exclusions, argmax -----

  function Likelihood(evidence: map<Cell, real>, cell: Cell): real {
    if cell !in evidence then 1.0
    else if evidence[cell] < EPSILON then EPSILON else evidence[cell]
  }

  function Weigh(g: Grid, n: nat, evidence: map<Cell, real>): (h: Grid)
    ensures Square(h, n)
  {
    Tabulate(n, (r: int, c: int) => At(g, (r, c)) * Likelihood(evidence, (r, c)))
  }

  function ObserveLikelihoods(g: Grid, n: nat, evidence: map<Cell, real>): (h: Grid)
    ensures Square(h, n)
  {
    Normalize(Weigh(g, n, evidence), n)
  }

  function Exclude(g: Grid, n: nat, cell: Cell): (h: Grid)
    requires Square(g, n)
    ensures Square(h, n)
  {
    if InBounds(cell, n) then Normalize(Put(g, cell.0, cell.1, 0.0), n) else g
  }

  /** The best cell before (r, c) in row-major order and its probability. */
  function BestBefore(g: Grid, n: nat, r: nat, c: nat): (Cell, real)
    decreases r, c
  {
    if c > 0 then
      var (best, probability) := BestBefore(g, n, r, c - 1);
      if At(g, (r, c - 1)) > probability then ((r, c - 1), At(g, (r, c - 1))) else (best, probability)
    else if r > 0 then BestBefore(g, n, r - 1, n)
    else ((0, 0), -1.0)
  }

  function MostLikely(g: Grid, n: nat): Cell {
    BestBefore(g, n, n, 0).0
  }

  predicate RowMajorBefore(a: Cell, b: Cell) {
    a.0 < b.0 || (a.0 == b.0 && a.1 < b.1)
  }

  lemma {:induction false} BestBeforeExact(g: Grid, n: nat, r: nat, c: nat)
    requires Square(g, n) && NonNegative(g, n) && r <= n && c <= n && (r == n ==> c == 0)
    ensures var (best, probability) := BestBefore(g, n, r, c);
            && (forall cell :: InBounds(cell, n) && RowMajorBefore(cell, (r, c)) ==> At(g, cell) <= probability)
            && ((r == 0 && c == 0) || n == 0 ||
                (InBounds(best, n) && At(g, best) == probability && RowMajorBefore(best, (r, c))))
            && (forall cell :: InBounds(cell, n) && RowMajorBefore(cell, best) ==> At(g, cell) < probability)
    decreases r, c
  {
    if c > 0 {
      BestBeforeExact(g, n, r, c - 1);
    } else if r > 0 {
      BestBeforeExact(g, n, r - 1, n);
    }
  }
}

/** Whole trails: where the scent is strongest, what the receiver reads from the wire, and how long a trace lasts. */
module ScentTrail {
  import opened Board
  import opened Grids
  import opened Belief
  import opened BeliefBounds
  import opened BeliefGrids
  import opened Scent
  import Wire

  function HalfUp(x: real): int {
    (x + 0.5).Floor
  }

  /** Rounding to the nearest thousandth, ties upwards, is one of the admitted roundings. */
  lemma HalfUpRounds()
    ensures Rounds(HalfUp)
  {
  }

  function Inverse(d: nat): real {
    1.0 / (d as real + 1.0)
  }

  /** One over one plus the squared distance is one of the admitted fall-offs. */
  lemma InverseFalls()
    ensures Falls(Inverse)
  {
    forall d: nat, e: nat | d <= e
      ensures 0.0 <= Inverse(e) <= Inverse(d) <= 1.0
    {
      QuotientMonotone(1.0, 1.0, e as real + 1.0, d as real + 1.0);
      QuotientMonotone(1.0, 1.0, d as real + 1.0, 1.0);
      NonNegativeQuotient(1.0, e as real + 1.0);
    }
  }

  /** The agreed centre intensity in thousandths. */
  function Centre(round: real -> int, terms: Terms): int {
    round(Thousandths(terms.intensity, 1.0))
  }

  lemma RoundKeepsIntegers(round: real -> int, k: int)
    requires Rounds(round)
    ensures round(k as real) == k
  {
    var r := round(k as real);
    assert -0.5 <= r as real - k as real <= 0.5;
    assert (r - k) as real == r as real - k as real;
  }

  ghost predicate Kept(field: Field, terms: Terms, top: int) {
    forall cell :: cell in field ==> InBounds(cell, terms.boardSize) && 0 <= field[cell] <= top
  }

  lemma FadedRange(round: real -> int, decay: real, v: int)
    requires Rounds(round) && 0.0 <= decay <= 1.0 && v >= 0
    ensures 0 <= Faded(round, decay, v) <= v
  {
    var x := v as real * (1.0 - decay);
    ProductUpTo(v as real, 1.0 - decay);
    RoundKeepsIntegers(round, 0);
    RoundKeepsIntegers(round, v);
  }

  lemma ThousandthsRange(intensity: real, fraction: real)
    requires 0.0 <= intensity <= 1.0 && 0.0 <= fraction <= 1.0
    ensures 0.0 <= Thousandths(intensity, fraction) <= Thousandths(intensity, 1.0) <= 1000.0
  {
    ProductRange(1000.0 * intensity, fraction);
    ProductByOne(1000.0 * intensity);
    hide Product;
  }

  lemma ProductRange(x: real, y: real)
    requires 0.0 <= x && 0.0 <= y <= 1.0
    ensures 0.0 <= Product(x, y) <= x
  {
    ProductUpTo(x, y);
  }

  lemma ProductByOne(x: real)
    ensures Product(x, 1.0) == x
  {
  }

  lemma EmittedRange(round: real -> int, falloff: nat -> real, terms: Terms, center: Cell, cell: Cell)
    requires Rounds(round) && Falls(falloff) && terms.Agreed()
    ensures 0 <= Emitted(round, falloff, terms.intensity, center, cell) <= Centre(round, terms)
  {
    hide SquaredDistance, Thousandths;
    ThousandthsRange(terms.intensity, falloff(SquaredDistance(center, cell)));
    RoundKeepsIntegers(round, 0);
  }

  lemma EmittedAtCentre(round: real -> int, falloff: nat -> real, terms: Terms, center: Cell)
    requires Falls(falloff)
    ensures Emitted(round, falloff, terms.intensity, center, center) == Centre(round, terms)
  {
    hide Thousandths;
    assert SquaredDistance(center, center) == 0 * 0 + 0 * 0;
  }

  /** Emitting keeps every trace within the agreed centre intensity, reached at the current cell. */
  lemma EmitKeeps(round: real -> int, falloff: nat -> real, terms: Terms, field: Field, position: Cell)
    requires Rounds(round) && Falls(falloff) && terms.Agreed()
    requires InBounds(position, terms.boardSize) && Kept(field, terms, Centre(round, terms))
    ensures Kept(Emit(round, falloff, terms, field, position), terms, Centre(round, terms))
    ensures Intensity(Emit(round, falloff, terms, field, position), position) == Centre(round, terms)
    ensures position in Emit(round, falloff, terms, field, position)
  {
    hide Emitted, Faded, Centre;
    var faded := DecayAll(round, terms.decay, field);
    var top := Centre(round, terms);
    forall cell | cell in faded
      ensures InBounds(cell, terms.boardSize) && 0 <= faded[cell] <= top
    {
      FadedRange(round, terms.decay, field[cell]);
    }
    hide DecayAll, Deposit;
    DepositExact(round, falloff, terms, faded, position);
    EmittedAtCentre(round, falloff, terms, position);
    forall cell: Cell
      ensures 0 <= Emitted(round, falloff, terms.intensity, position, cell) <= top
    {
      EmittedRange(round, falloff, terms, position, cell);
    }
  }

  /** The field after emitting at each position in turn. */
  ghost function Trail(round: real -> int, falloff: nat -> real, terms: Terms, positions: seq<Cell>): Field {
    if positions == [] then map[]
    else Emit(round, falloff, terms, Trail(round, falloff, terms, positions[..|positions| - 1]),
              positions[|positions| - 1])
  }

  /** After any sequence of emissions the current cell holds the highest intensity of the whole field. */
  lemma {:induction false} TrailStrongestHere(round: real -> int, falloff: nat -> real, terms: Terms,
                                              positions: seq<Cell>)
    requires Rounds(round) && Falls(falloff) && terms.Agreed()
    requires forall i :: 0 <= i < |positions| ==> InBounds(positions[i], terms.boardSize)
    ensures Kept(Trail(round, falloff, terms, positions), terms, Centre(round, terms))
    ensures positions != [] ==>
              Intensity(Trail(round, falloff, terms, positions), positions[|positions| - 1]) == Centre(round, terms)
    ensures positions != [] ==> positions[|positions| - 1] in Trail(round, falloff, terms, positions)
  {
    hide Emit, Centre;
    if positions != [] {
      TrailStrongestHere(round, falloff, terms, positions[..|positions| - 1]);
      EmitKeeps(round, falloff, terms, Trail(round, falloff, terms, positions[..|positions| - 1]),
                positions[|positions| - 1]);
    }
  }

  // ----- over the wire -----

  ghost function Readings(field: Field): map<Cell, real> {
    map cell | cell in field && field[cell] > 0 :: field[cell] as real / 1000.0
  }

  lemma {:induction false} PrefixParses(field: Field, entries: seq<(string, Reading)>, n: nat)
    requires forall i :: 0 <= i < |entries| ==> LiveEntry(field, entries[i])
    requires forall cell :: cell in field ==> InBounds(cell, n) && field[cell] <= 1000
    ensures forall cell :: cell in ParseReadings(entries, n) <==>
              cell in field && field[cell] > 0 && WireEntry(field, cell) in entries
    ensures forall cell :: cell in ParseReadings(entries, n) ==>
            ParseReadings(entries, n)[cell] == field[cell] as real / 1000.0
  {
    hide Wire.ParseCell, Wire.FormatCell;
    if entries != [] {
      var front, last := entries[..|entries| - 1], entries[|entries| - 1];
      PrefixParses(field, front, n);
      var cell :| cell in field && field[cell] > 0 && last == WireEntry(field, cell);
      Wire.CellRoundTrip(cell, n);
      assert entries == front + [last];
      forall x | WireEntry(field, x) == last
        ensures x == cell
      {
        Wire.FormatCellInjective(x, cell);
      }
    }
  }

  /** The receiver reads back exactly the live traces, whatever the order of the entries. */
  lemma SnapshotReadBack(field: Field, entries: seq<(string, Reading)>, n: nat)
    requires IsSnapshot(field, entries)
    requires forall cell :: cell in field ==> InBounds(cell, n) && field[cell] <= 1000
    ensures ParseReadings(entries, n) == Readings(field)
  {
    hide ParseReadings, WireEntry;
    PrefixParses(field, entries, n);
    var parsed, live := ParseReadings(entries, n), Readings(field);
    assert forall cell :: cell in parsed <==> cell in live;
    assert forall cell :: cell in parsed ==> parsed[cell] == live[cell];
  }

  /** Emission, wire and observation together: what the emitting peer's own cell is multiplied by. */
  lemma EmittedCellBoost(round: real -> int, falloff: nat -> real, terms: Terms, positions: seq<Cell>,
                         entries: seq<(string, Reading)>, trust: real, power: Raising)
    requires Rounds(round) && Falls(falloff) && terms.Agreed() && positions != [] && Raises(power)
    requires forall i :: 0 <= i < |positions| ==> InBounds(positions[i], terms.boardSize)
    requires IsSnapshot(Trail(round, falloff, terms, positions), entries)
    ensures var readings := ParseReadings(entries, terms.boardSize);
            CellBoost(readings, Peak(readings), trust, power, positions[|positions| - 1])
            == if Centre(round, terms) > 0 then 1.0 + trust else 1.0
    ensures Centre(round, terms) == 0 ==> ParseReadings(entries, terms.boardSize) == map[]
  {
    hide ParseReadings, Trail, IsSnapshot, Centre, Peak;
    var field, here := Trail(round, falloff, terms, positions), positions[|positions| - 1];
    TrailStrongestHere(round, falloff, terms, positions);
    CentreAtMostOne(round, terms);
    SnapshotReadBack(field, entries, terms.boardSize);
    var readings := Readings(field);
    if Centre(round, terms) > 0 {
      assert here in readings;
      StrongestFullBoost(readings, here, trust, power);
    } else {
      assert readings == map[];
      PeakUnique(readings, Peak(readings), 0.0);
    }
  }

  /**
   * The emitter's own cell gets the full boost exactly when its emission does not round to nothing, or trust is zero.
   */
  lemma EmittedCellFullBoostIff(round: real -> int, falloff: nat -> real, terms: Terms, positions: seq<Cell>,
                                entries: seq<(string, Reading)>, trust: real, power: Raising)
    requires Rounds(round) && Falls(falloff) && terms.Agreed() && positions != [] && Raises(power)
    requires forall i :: 0 <= i < |positions| ==> InBounds(positions[i], terms.boardSize)
    requires IsSnapshot(Trail(round, falloff, terms, positions), entries)
    ensures var readings := ParseReadings(entries, terms.boardSize);
            CellBoost(readings, Peak(readings), trust, power, positions[|positions| - 1]) == 1.0 + trust
            <==> Centre(round, terms) > 0 || trust == 0.0
  {
    hide ParseReadings, Trail, IsSnapshot, Centre, Peak, CellBoost;
    TrailStrongestHere(round, falloff, terms, positions);
    EmittedCellBoost(round, falloff, terms, positions, entries, trust, power);
    CentreNonNegative(round, terms);
  }

  lemma CentreNonNegative(round: real -> int, terms: Terms)
    requires Rounds(round) && terms.Agreed()
    ensures Centre(round, terms) >= 0
  {
    ThousandthsRange(terms.intensity, 1.0);
    hide Thousandths;
    RoundKeepsIntegers(round, 0);
  }

  /** Before the leak, observing never lowers the emitter's own cell. */
  lemma EmitterNeverLowered(round: real -> int, falloff: nat -> real, terms: Terms, positions: seq<Cell>,
                            entries: seq<(string, Reading)>, g: Grid, trust: real, power: Raising)
    requires Rounds(round) && Falls(falloff) && terms.Agreed() && positions != [] && Raises(power) && trust >= 0.0
    requires forall i :: 0 <= i < |positions| ==> InBounds(positions[i], terms.boardSize)
    requires IsSnapshot(Trail(round, falloff, terms, positions), entries) && Distribution(g, terms.boardSize)
    ensures var readings := ParseReadings(entries, terms.boardSize);
            At(Normalize(Sharpen(g, terms.boardSize, readings, Peak(readings), trust, power), terms.boardSize),
               positions[|positions| - 1])
            >= At(g, positions[|positions| - 1])
  {
    hide ParseReadings, Trail, IsSnapshot, Centre, Peak, CellBoost, Sharpen, Normalize, Total;
    var n, here, readings := terms.boardSize, positions[|positions| - 1], ParseReadings(entries, terms.boardSize);
    EmittedCellBoost(round, falloff, terms, positions, entries, trust, power);
    CentreNonNegative(round, terms);
    if Centre(round, terms) > 0 {
      FullBoostRaises(g, n, entries, here, trust, power);
    } else {
      NothingSmelled(g, n, trust, power);
      NormalizedSame(g, n, here);
    }
  }

  /** A cell with the full boost is not lowered by normalising. */
  lemma FullBoostRaises(g: Grid, n: nat, entries: seq<(string, Reading)>, here: Cell, trust: real, power: Raising)
    requires Distribution(g, n) && InBounds(here, n) && Raises(power) && trust >= 0.0
    requires var readings := ParseReadings(entries, n);
             CellBoost(readings, Peak(readings), trust, power, here) == 1.0 + trust
    ensures var readings := ParseReadings(entries, n);
            At(Normalize(Sharpen(g, n, readings, Peak(readings), trust, power), n), here) >= At(g, here)
  {
    hide ParseReadings, Peak, CellBoost, Sharpen, Normalize, Total;
    var readings := ParseReadings(entries, n);
    var h := Sharpen(g, n, readings, Peak(readings), trust, power);
    SharpenAtCell(g, n, readings, Peak(readings), trust, power, here.0, here.1);
    SharpenedBounds(g, n, entries, trust, power);
    ReweighedTotal(g, h, n, 1.0 + trust);
    NormalizedCell(h, n, here);
    var p, total := At(g, here), Total(h);
    assert At(h, here) == p * (1.0 + trust) && p >= 0.0;
    hide *;
    BoostedShare(p, trust, total);
  }

  lemma NormalizedSame(g: Grid, n: nat, cell: Cell)
    requires Distribution(g, n) && InBounds(cell, n)
    ensures At(Normalize(g, n), cell) == At(g, cell)
  {
    hide Total, Normalize;
    NormalizedCell(g, n, cell);
  }

  lemma BoostedShare(p: real, trust: real, total: real)
    requires 0.0 <= p && 1.0 <= total <= 1.0 + trust
    ensures p * (1.0 + trust) / total >= p
  {
    ProductMonotone(p, total, 1.0 + trust);
    QuotientMonotone(p * total, p * (1.0 + trust), total, total);
    assert p * total / total == p;
  }

  lemma NothingSmelled(g: Grid, n: nat, trust: real, power: Raising)
    requires Square(g, n)
    ensures Sharpen(g, n, map[], Peak(map[]), trust, power) == g
  {
    PeakUnique(map[], Peak(map[]), 0.0);
    SameCellsEqual(Sharpen(g, n, map[], Peak(map[]), trust, power), g, n);
  }

  /** A cell whose reading is positive and not below any other is boosted by exactly 1 + trust. */
  lemma StrongestFullBoost(readings: map<Cell, real>, here: Cell, trust: real, power: Raising)
    requires here in readings && readings[here] > 0.0 && Raises(power)
    requires forall cell :: cell in readings ==> readings[cell] <= readings[here]
    ensures CellBoost(readings, Peak(readings), trust, power, here) == 1.0 + trust
  {
    PeakUnique(readings, Peak(readings), readings[here]);
    assert readings[here] / readings[here] == 1.0;
  }

  lemma CentreAtMostOne(round: real -> int, terms: Terms)
    requires Rounds(round) && terms.Agreed()
    ensures Centre(round, terms) <= 1000
  {
    ThousandthsRange(terms.intensity, 1.0);
    hide Thousandths;
    RoundKeepsIntegers(round, 1000);
  }

  // ----- fading -----

  /** One decay of a single trace that is not deposited again; None once it has disappeared. */
  ghost function FadeOnce(round: real -> int, decay: real, trace: Option<int>): Option<int> {
    if trace.None? || Faded(round, decay, trace.value) < TRACE_FLOOR then None
    else Some(Faded(round, decay, trace.value))
  }

  ghost function FadeTimes(round: real -> int, decay: real, trace: Option<int>, k: nat): Option<int>
    decreases k
  {
    if k == 0 then trace else FadeTimes(round, decay, FadeOnce(round, decay, trace), k - 1)
  }

  function Lookup(field: Field, cell: Cell): Option<int> {
    if cell in field then Some(field[cell]) else None
  }

  /** The per-trace view agrees with decaying the whole field. */
  lemma DecayIsFadeOnce(round: real -> int, decay: real, field: Field, cell: Cell)
    ensures Lookup(DecayAll(round, decay, field), cell) == FadeOnce(round, decay, Lookup(field, cell))
  {
    hide Faded;
  }

  lemma {:induction false} GoneStaysGone(round: real -> int, decay: real, k: nat)
    ensures FadeTimes(round, decay, None, k) == None
  {
    if k > 0 {
      GoneStaysGone(round, decay, k - 1);
    }
  }

  lemma FadesByOne(round: real -> int, decay: real, v: int)
    requires Rounds(round) && 0.05 < decay <= 1.0 && v >= 10
    ensures Faded(round, decay, v) <= v - 1
  {
    LosesHalf(v as real, decay);
    RoundsBelow(round, v as real * (1.0 - decay), v);
  }

  lemma LosesHalf(v: real, decay: real)
    requires v >= 10.0 && decay > 0.05
    ensures v * (1.0 - decay) < v - 0.5
  {
    ProductNonNegative(v - 10.0, decay);
    assert (v - 10.0) * decay == v * decay - 10.0 * decay;
    assert v * (1.0 - decay) == v - v * decay;
  }

  lemma RoundsBelow(round: real -> int, x: real, v: int)
    requires Rounds(round) && x < v as real - 0.5
    ensures round(x) <= v - 1
  {
    var r := round(x);
    assert r as real - x <= 0.5;
  }

  lemma SmallTraceGoes(round: real -> int, decay: real, v: int)
    requires Rounds(round) && 0.0 <= decay <= 1.0 && 0 <= v < 10
    ensures FadeOnce(round, decay, Some(v)) == None
  {
    FadedRange(round, decay, v);
  }

  /** Above a decay of five percent every trace of v thousandths is gone after max(1, v - 9) decays. */
  lemma {:induction false} TraceVanishes(round: real -> int, decay: real, v: int, k: nat)
    requires Rounds(round) && 0.05 < decay <= 1.0 && v >= 0
    requires k >= 1 && k >= v - 9
    ensures FadeTimes(round, decay, Some(v), k) == None
    decreases k
  {
    if v < 10 {
      SmallTraceGoes(round, decay, v);
      GoneStaysGone(round, decay, k - 1);
    } else {
      var next := FadeOnce(round, decay, Some(v));
      FadesByOne(round, decay, v);
      if next.None? {
        GoneStaysGone(round, decay, k - 1);
      } else {
        TraceVanishes(round, decay, next.value, k - 1);
      }
    }
  }

  lemma TenSurvives(round: real -> int, decay: real, v: int)
    requires Rounds(round) && 0.0 <= decay < 0.05 && v >= 10
    ensures Faded(round, decay, v) >= 10
  {
    StaysAbove(v as real, 1.0 - decay);
    RoundsAbove(round, v as real * (1.0 - decay));
  }

  lemma StaysAbove(v: real, kept: real)
    requires v >= 10.0 && kept > 0.95
    ensures v * kept > 9.5
  {
    ProductNonNegative(v - 10.0, kept);
    assert (v - 10.0) * kept == v * kept - 10.0 * kept;
  }

  lemma RoundsAbove(round: real -> int, x: real)
    requires Rounds(round) && x > 9.5
    ensures round(x) >= 10
  {
    var r := round(x);
    assert -0.5 <= r as real - x;
  }

  // ----- a trace in the field, over many emissions -----

  /** The field after further emissions at each position in turn. */
  ghost function EmitAll(round: real -> int, falloff: nat -> real, terms: Terms, field: Field,
                         positions: seq<Cell>): Field
    decreases |positions|
  {
    if positions == [] then field
    else EmitAll(round, falloff, terms, Emit(round, falloff, terms, field, positions[0]), positions[1..])
  }

  /** A trail is its beginning with the rest emitted on top. */
  lemma {:induction false} TrailContinues(round: real -> int, falloff: nat -> real, terms: Terms, past: seq<Cell>,
                                          later: seq<Cell>)
    ensures Trail(round, falloff, terms, past + later) ==
            EmitAll(round, falloff, terms, Trail(round, falloff, terms, past), later)
    decreases |later|
  {
    hide Emit;
    if later == [] {
      assert past + later == past;
    } else {
      var longer := past + [later[0]];
      assert longer[..|longer| - 1] == past && past + later == longer + later[1..];
      TrailContinues(round, falloff, terms, longer, later[1..]);
    }
  }

  ghost predicate MissedBy(terms: Terms, positions: seq<Cell>, cell: Cell) {
    forall i :: 0 <= i < |positions| ==> !InWindow(terms, positions[i], cell)
  }

  lemma EmitMisses(round: real -> int, falloff: nat -> real, terms: Terms, field: Field, position: Cell, cell: Cell)
    requires !InWindow(terms, position, cell)
    ensures Lookup(Emit(round, falloff, terms, field, position), cell) ==
            FadeOnce(round, terms.decay, Lookup(field, cell))
  {
    hide Emitted, InWindow, Faded, DecayAll, Deposit;
    DepositExact(round, falloff, terms, DecayAll(round, terms.decay, field), position);
    DecayIsFadeOnce(round, terms.decay, field, cell);
  }

  /** A cell that no window reaches fades by itself. */
  lemma {:induction false} MissedCellFades(round: real -> int, falloff: nat -> real, terms: Terms, field: Field,
                                           positions: seq<Cell>, cell: Cell)
    requires MissedBy(terms, positions, cell)
    ensures Lookup(EmitAll(round, falloff, terms, field, positions), cell)
         == FadeTimes(round, terms.decay, Lookup(field, cell), |positions|)
    decreases |positions|
  {
    hide Emit, InWindow, FadeOnce;
    if positions != [] {
      EmitMisses(round, falloff, terms, field, positions[0], cell);
      MissedCellFades(round, falloff, terms, Emit(round, falloff, terms, field, positions[0]), positions[1..], cell);
    }
  }

  /**
   * With decay above five percent, a trace that the windows of max(1, v - 9) further emissions all miss is gone from
   * the field, v being its thousandths.
   */
  lemma MissedTraceVanishes(round: real -> int, falloff: nat -> real, terms: Terms, past: seq<Cell>, later: seq<Cell>,
                            cell: Cell)
    requires Rounds(round) && Falls(falloff) && terms.Agreed() && terms.decay > 0.05
    requires forall i :: 0 <= i < |past| ==> InBounds(past[i], terms.boardSize)
    requires MissedBy(terms, later, cell)
    requires |later| >= 1 && |later| >= Intensity(Trail(round, falloff, terms, past), cell) - 9
    ensures cell !in Trail(round, falloff, terms, past + later)
  {
    hide Trail, Emit, InWindow, FadeTimes, Centre;
    var field := Trail(round, falloff, terms, past);
    TrailStrongestHere(round, falloff, terms, past);
    TrailContinues(round, falloff, terms, past, later);
    MissedCellFades(round, falloff, terms, field, later, cell);
    if cell in field {
      TraceVanishes(round, terms.decay, field[cell], |later|);
    } else {
      GoneStaysGone(round, terms.decay, |later|);
    }
  }

  lemma EmitKeepsStrong(round: real -> int, falloff: nat -> real, terms: Terms, field: Field, position: Cell,
                        cell: Cell)
    requires Rounds(round) && 0.0 <= terms.decay < 0.05 && Intensity(field, cell) >= TRACE_FLOOR
    ensures Intensity(Emit(round, falloff, terms, field, position), cell) >= TRACE_FLOOR
  {
    hide Emitted, InWindow, Faded, Deposit;
    TenSurvives(round, terms.decay, field[cell]);
    var faded := DecayAll(round, terms.decay, field);
    assert cell in faded && faded[cell] == Faded(round, terms.decay, field[cell]);
    hide DecayAll;
    DepositExact(round, falloff, terms, faded, position);
  }

  lemma SquaresOf(a: Cell, b: Cell, rows: int, columns: int, d: nat)
    requires rows == b.0 - a.0 && columns == b.1 - a.1 && d == rows * rows + columns * columns
    ensures SquaredDistance(a, b) == d
  {
    assert Abs(rows) * Abs(rows) == rows * rows && Abs(columns) * Abs(columns) == columns * columns;
    assert Abs(a.0 - b.0) == Abs(rows) && Abs(a.1 - b.1) == Abs(columns);
  }

  /**
   * One emission, cell by cell: what is left of the trace, unless it fell below ten thousandths, and within the window
   * what is laid down at the squared distance, whichever is stronger.
   */
  lemma EmitExact(round: real -> int, falloff: nat -> real, terms: Terms, field: Field, position: Cell, cell: Cell,
                  rows: int, columns: int, d: nat, left: real, laid: real)
    requires rows == cell.0 - position.0 && columns == cell.1 - position.1 && d == rows * rows + columns * columns
    requires left == if cell in field then field[cell] as real * (1.0 - terms.decay) else 0.0
    requires laid == 1000.0 * terms.intensity * falloff(d)
    ensures var kept := cell in field && round(left) >= 10;
            var reached := InBounds(cell, terms.boardSize) &&
                           -terms.half <= rows <= terms.half && -terms.half <= columns <= terms.half;
            Lookup(Emit(round, falloff, terms, field, position), cell) ==
            if kept && reached then Some(Max(round(left), round(laid)))
            else if kept then Some(round(left))
            else if reached then Some(Max(0, round(laid)))
            else None
  {
    hide SquaredDistance, DecayAll, Deposit, Emitted, Faded;
    SquaresOf(position, cell, rows, columns, d);
    LaidAt(round, falloff, terms, position, cell, d, laid);
    DecayIsFadeOnce(round, terms.decay, field, cell);
    if cell in field {
      LeftOf(round, terms.decay, field[cell], left);
    }
    DepositExact(round, falloff, terms, DecayAll(round, terms.decay, field), position);
  }

  lemma LaidAt(round: real -> int, falloff: nat -> real, terms: Terms, position: Cell, cell: Cell, d: nat, laid: real)
    requires SquaredDistance(position, cell) == d && laid == 1000.0 * terms.intensity * falloff(d)
    ensures Emitted(round, falloff, terms.intensity, position, cell) == round(laid)
  {
    hide SquaredDistance;
    assert Thousandths(terms.intensity, falloff(d)) == laid;
  }

  lemma LeftOf(round: real -> int, decay: real, v: int, left: real)
    requires left == v as real * (1.0 - decay)
    ensures Faded(round, decay, v) == round(left)
  {
  }

  /** With decay below five percent, a trace of at least ten thousandths stays in the field for ever. */
  lemma {:induction false} StrongTraceStays(round: real -> int, falloff: nat -> real, terms: Terms, field: Field,
                                            positions: seq<Cell>, cell: Cell)
    requires Rounds(round) && 0.0 <= terms.decay < 0.05 && Intensity(field, cell) >= TRACE_FLOOR
    ensures Intensity(EmitAll(round, falloff, terms, field, positions), cell) >= TRACE_FLOOR
    decreases |positions|
  {
    hide Emit;
    if positions != [] {
      EmitKeepsStrong(round, falloff, terms, field, positions[0], cell);
      StrongTraceStays(round, falloff, terms, Emit(round, falloff, terms, field, positions[0]), positions[1..], cell);
    }
  }
}

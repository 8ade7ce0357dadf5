/** Every piece of evidence moves the belief as Bayes' rule says, with the weight of each cell written out. */
module BeliefBayes {
  import opened Board
  import opened Grids
  import opened Belief
  import opened BeliefBounds
  import opened BeliefExclusions
  import opened BeliefTuning
  import opened BeliefGrids
  import opened Diffusion
  import opened Hints
  import Wire

  /** The weight that evidence gives to each cell. */
  type Weight = Cell -> real

  /** Bayes' rule: the odds of any two cells are their odds before, times the ratio of their weights. */
  ghost predicate Reweighed(before: Grid, after: Grid, n: nat, weight: Weight) {
    Distribution(after, n) &&
    forall a, b :: InBounds(a, n) && InBounds(b, n) ==> InOdds(before, after, weight, a, b)
  }

  ghost predicate InOdds(before: Grid, after: Grid, weight: Weight, a: Cell, b: Cell) {
    At(after, a) * (At(before, b) * weight(b)) == At(after, b) * (At(before, a) * weight(a))
  }

  lemma CrossQuotient(x: real, y: real, total: real)
    requires total > 0.0
    ensures x / total * y == y / total * x
  {
    var p, q := x / total, y / total;
    assert p * total == x && q * total == y;
    assert p * (q * total) == q * (p * total);
  }

  ghost predicate WeighedAt(before: Grid, h: Grid, weight: Weight, cell: Cell) {
    At(h, cell) == At(before, cell) * weight(cell)
  }

  lemma NormalizedOdds(before: Grid, h: Grid, n: nat, weight: Weight, a: Cell, b: Cell)
    requires Square(h, n) && Total(h) >= EPSILON && InBounds(a, n) && InBounds(b, n)
    requires WeighedAt(before, h, weight, a) && WeighedAt(before, h, weight, b)
    ensures InOdds(before, Normalize(h, n), weight, a, b)
  {
    hide Total, Normalize, At;
    NormalizedCell(h, n, a);
    NormalizedCell(h, n, b);
    CrossQuotient(At(h, a), At(h, b), Total(h));
  }

  /** Multiplying every cell by its weight and normalising is Bayes' rule, unless almost no mass is left. */
  lemma NormalizedIsBayes(before: Grid, h: Grid, n: nat, weight: Weight)
    requires n >= 1 && Square(h, n) && NonNegative(h, n) && Total(h) >= EPSILON
    requires forall r, c :: 0 <= r < n && 0 <= c < n ==> WeighedAt(before, h, weight, (r, c))
    ensures Reweighed(before, Normalize(h, n), n, weight)
  {
    hide Total, Normalize, WeighedAt, InOdds;
    NormalizeIsDistribution(h, n);
    forall a, b | InBounds(a, n) && InBounds(b, n)
      ensures InOdds(before, Normalize(h, n), weight, a, b)
    {
      assert WeighedAt(before, h, weight, (a.0, a.1)) && WeighedAt(before, h, weight, (b.0, b.1));
      NormalizedOdds(before, h, n, weight, a, b);
    }
  }

  // ----- prediction -----

  /** How many cells a Police on this cell may occupy one turn later: this one and its neighbours on the board. */
  function Ways(n: nat, cell: Cell): real {
    1.0 + (if cell.0 > 0 then 1.0 else 0.0) + (if cell.0 + 1 < n then 1.0 else 0.0)
    + (if cell.1 > 0 then 1.0 else 0.0) + (if cell.1 + 1 < n then 1.0 else 0.0)
  }

  /** The part of a cell's probability that goes to each cell it reaches; what is below EPSILON is dropped. */
  function Part(g: Grid, n: nat, cell: Cell): real {
    if InBounds(cell, n) && At(g, cell) >= EPSILON then At(g, cell) / Ways(n, cell) else 0.0
  }

  /** What comes in from the cell itself and from north, south, west and east. */
  function Inflow(g: Grid, n: nat, cell: Cell): real {
    Part(g, n, cell) + Part(g, n, (cell.0 - 1, cell.1)) + Part(g, n, (cell.0 + 1, cell.1))
    + Part(g, n, (cell.0, cell.1 - 1)) + Part(g, n, (cell.0, cell.1 + 1))
  }

  /** The belief one turn later is proportional to the inflow; it is uniform when every cell is below EPSILON. */
  ghost predicate Predicted(before: Grid, after: Grid, n: nat) {
    Distribution(after, n) &&
    (forall a, b :: InBounds(a, n) && InBounds(b, n) ==>
       At(after, a) * Inflow(before, n, b) == At(after, b) * Inflow(before, n, a)) &&
    ((forall cell :: InBounds(cell, n) ==> At(before, cell) < EPSILON) ==>
       forall cell :: InBounds(cell, n) ==> At(after, cell) == 1.0 / (n as real * n as real))
  }

  lemma ReachNext(n: nat, cell: Cell, offset: (int, int), rest: seq<(int, int)>)
    ensures |ReachFrom(cell, n, [offset] + rest)| ==
            |ReachFrom(cell, n, rest)| + if InBounds(Shift(cell, offset), n) then 1 else 0
  {
    assert ([offset] + rest)[1..] == rest;
  }

  lemma ReachCounts(n: nat, cell: Cell)
    requires InBounds(cell, n)
    ensures |Reach(cell, n)| as real == Ways(n, cell)
  {
    hide ReachFrom;
    ReachNext(n, cell, (0, 1), []);
    ReachNext(n, cell, (0, -1), [(0, 1)]);
    ReachNext(n, cell, (1, 0), [(0, -1), (0, 1)]);
    ReachNext(n, cell, (-1, 0), [(1, 0), (0, -1), (0, 1)]);
    ReachNext(n, cell, (0, 0), [(-1, 0), (1, 0), (0, -1), (0, 1)]);
    NoOffsets(n, cell);
    assert [(0, 1)] + [] == [(0, 1)];
    assert [(0, -1)] + [(0, 1)] == [(0, -1), (0, 1)];
    assert [(1, 0)] + [(0, -1), (0, 1)] == [(1, 0), (0, -1), (0, 1)];
    assert [(-1, 0)] + [(1, 0), (0, -1), (0, 1)] == [(-1, 0), (1, 0), (0, -1), (0, 1)];
    assert [(0, 0)] + [(-1, 0), (1, 0), (0, -1), (0, 1)] == OFFSETS;
  }

  lemma NoOffsets(n: nat, cell: Cell)
    ensures ReachFrom(cell, n, []) == []
  {
  }

  lemma PartIsShare(g: Grid, n: nat, cell: Cell)
    ensures Part(g, n, cell) == Share(g, n, cell)
  {
    hide Reach, Ways;
    if InBounds(cell, n) {
      ReachCounts(n, cell);
      ReachExact(cell, n);
    }
  }

  lemma NoneMoves(g: Grid, n: nat)
    requires Square(g, n) && forall cell :: InBounds(cell, n) ==> At(g, cell) < EPSILON
    ensures Total(Moving(g, n)) == 0.0
  {
    hide Total;
    TotalConstant(Moving(g, n), n, n, 0.0);
  }

  lemma SomeMoves(g: Grid, n: nat, cell: Cell)
    requires Square(g, n) && NonNegative(g, n) && InBounds(cell, n) && At(g, cell) >= EPSILON
    ensures Total(Moving(g, n)) >= EPSILON
  {
    hide Total;
    var moving := Moving(g, n);
    var cleared := Put(moving, cell.0, cell.1, 0.0);
    TotalPut(moving, cell.0, cell.1, 0.0);
    TotalNonNegative(cleared, n);
  }

  lemma GatherIsInflow(g: Grid, n: nat, cell: Cell)
    requires InBounds(cell, n)
    ensures At(Spread(g, n), cell) == Inflow(g, n, cell)
  {
    hide Part, Share;
    PartIsShare(g, n, cell);
    PartIsShare(g, n, (cell.0 - 1, cell.1));
    PartIsShare(g, n, (cell.0 + 1, cell.1));
    PartIsShare(g, n, (cell.0, cell.1 - 1));
    PartIsShare(g, n, (cell.0, cell.1 + 1));
  }

  lemma DiffusedOdds(g: Grid, n: nat, a: Cell, b: Cell)
    requires Square(g, n) && InBounds(a, n) && InBounds(b, n)
    requires Total(Moving(g, n)) >= EPSILON || (Inflow(g, n, a) == 0.0 && Inflow(g, n, b) == 0.0)
    ensures At(Diffuse(g, n), a) * Inflow(g, n, b) == At(Diffuse(g, n), b) * Inflow(g, n, a)
  {
    hide Total, Inflow, Normalize, Moving, Spread, At;
    SpreadConserves(g, n);
    var spread := Spread(g, n);
    if Total(spread) >= EPSILON {
      GatherIsInflow(g, n, a);
      GatherIsInflow(g, n, b);
      NormalizedCell(spread, n, a);
      NormalizedCell(spread, n, b);
      CrossQuotient(At(spread, a), At(spread, b), Total(spread));
    }
  }

  /** Prediction hands every cell on in equal parts to the cells it reaches. */
  lemma PredictionFollowsInflow(g: Grid, n: nat)
    requires n >= 1 && Square(g, n) && NonNegative(g, n)
    ensures Predicted(g, Diffuse(g, n), n)
  {
    hide Total, Inflow, Diffuse, Moving;
    DiffuseIsDistribution(g, n);
    forall a, b | InBounds(a, n) && InBounds(b, n)
      ensures At(Diffuse(g, n), a) * Inflow(g, n, b) == At(Diffuse(g, n), b) * Inflow(g, n, a)
    {
      if cell :| InBounds(cell, n) && At(g, cell) >= EPSILON {
        SomeMoves(g, n, cell);
      } else {
        NothingComesIn(g, n, a);
        NothingComesIn(g, n, b);
      }
      DiffusedOdds(g, n, a, b);
    }
    if forall cell :: InBounds(cell, n) ==> At(g, cell) < EPSILON {
      DiffusedUniform(g, n);
    }
  }

  lemma DiffusedUniform(g: Grid, n: nat)
    requires n >= 1 && Square(g, n) && forall cell :: InBounds(cell, n) ==> At(g, cell) < EPSILON
    ensures forall cell :: InBounds(cell, n) ==> At(Diffuse(g, n), cell) == 1.0 / (n as real * n as real)
  {
    hide Total, Spread, Moving;
    NoneMoves(g, n);
    SpreadConserves(g, n);
    NormalizeFallsBack(Spread(g, n), n);
    hide Normalize;
  }

  lemma NothingComesIn(g: Grid, n: nat, cell: Cell)
    requires forall c :: InBounds(c, n) ==> At(g, c) < EPSILON
    ensures Inflow(g, n, cell) == 0.0
  {
    hide Ways;
  }

  // ----- scent -----

  /** The usable entry at i names this cell. */
  predicate Mentions(entries: seq<(string, Reading)>, n: nat, cell: Cell, i: nat)
    requires i < |entries|
  {
    entries[i].1.Number? && Wire.ParseCell(entries[i].0, n) == Some(cell)
  }

  function InUnit(x: real): real {
    if 0.0 <= x <= 1.0 then x else if x < 0.0 then 0.0 else 1.0
  }

  /** Entry i names the cell, no later one does, and it holds this intensity, cut to the unit interval. */
  ghost predicate LastAt(entries: seq<(string, Reading)>, n: nat, cell: Cell, x: real, i: nat) {
    i < |entries| && Mentions(entries, n, cell, i) && x == InUnit(entries[i].1.intensity) &&
    forall j :: i < j < |entries| ==> !Mentions(entries, n, cell, j)
  }

  ghost predicate LastReading(entries: seq<(string, Reading)>, n: nat, cell: Cell, x: real) {
    exists i: nat :: LastAt(entries, n, cell, x, i)
  }

  /** What is no cell of the board or no number is skipped, and the last entry of a cell counts. */
  lemma {:induction false} LastReadingCounts(entries: seq<(string, Reading)>, n: nat, cell: Cell)
    ensures if cell in ParseReadings(entries, n) then LastReading(entries, n, cell, ParseReadings(entries, n)[cell])
            else forall i :: 0 <= i < |entries| ==> !Mentions(entries, n, cell, i)
  {
    hide Wire.ParseCell;
    if entries != [] {
      var k := |entries| - 1;
      LastReadingCounts(entries[..k], n, cell);
      hide Mentions, LastReading;
      forall i | 0 <= i < k
        ensures Mentions(entries[..k], n, cell, i) == Mentions(entries, n, cell, i)
      {
        EarlierMention(entries, n, cell, i, k);
      }
      LastMention(entries, n, cell);
      if !Mentions(entries, n, cell, k) && cell in ParseReadings(entries[..k], n) {
        EarlierReading(entries, n, cell, k, ParseReadings(entries[..k], n)[cell]);
      }
    }
  }

  lemma EarlierMention(entries: seq<(string, Reading)>, n: nat, cell: Cell, i: nat, k: nat)
    requires i < k <= |entries|
    ensures Mentions(entries[..k], n, cell, i) == Mentions(entries, n, cell, i)
  {
  }

  /** The last entry counts when it names the cell. */
  lemma LastMention(entries: seq<(string, Reading)>, n: nat, cell: Cell)
    requires entries != []
    ensures var k := |entries| - 1;
            Mentions(entries, n, cell, k) <==> entries[k].1.Number? && Wire.ParseCell(entries[k].0, n) == Some(cell)
    ensures Mentions(entries, n, cell, |entries| - 1) ==>
              LastReading(entries, n, cell, Clamp(entries[|entries| - 1].1.intensity))
  {
    hide Wire.ParseCell;
    if Mentions(entries, n, cell, |entries| - 1) {
      assert LastAt(entries, n, cell, Clamp(entries[|entries| - 1].1.intensity), |entries| - 1);
    }
  }

  lemma EarlierReading(entries: seq<(string, Reading)>, n: nat, cell: Cell, k: nat, x: real)
    requires |entries| == k + 1 && !Mentions(entries, n, cell, k) && LastReading(entries[..k], n, cell, x)
    ensures LastReading(entries, n, cell, x)
  {
    hide Mentions, LastAt;
    var i: nat :| LastAt(entries[..k], n, cell, x, i);
    LastAtLonger(entries, n, cell, k, x, i);
  }

  lemma LastAtLonger(entries: seq<(string, Reading)>, n: nat, cell: Cell, k: nat, x: real, i: nat)
    requires |entries| == k + 1 && !Mentions(entries, n, cell, k) && LastAt(entries[..k], n, cell, x, i)
    ensures LastAt(entries, n, cell, x, i)
  {
    hide Wire.ParseCell, InUnit;
    assert entries[..k][i] == entries[i];
    forall j | i < j < k
      ensures !Mentions(entries, n, cell, j)
    {
      assert entries[..k][j] == entries[j];
      assert !Mentions(entries[..k], n, cell, j);
    }
  }

  /** The weight of a scent packet: the reading relative to the peak, raised to the power, scaled by the trust. */
  ghost function ScentWeight(readings: map<Cell, real>, peak: real, trust: real, power: Raising): Weight {
    (cell: Cell) => if peak > 0.0 && cell in readings then 1.0 + trust * power(readings[cell] / peak) else 1.0
  }

  /** Before the leak, observing a scent packet is Bayes' rule with these weights. */
  lemma ScentIsBayes(g: Grid, n: nat, entries: seq<(string, Reading)>, peak: real, trust: real, power: Raising)
    requires Distribution(g, n) && Raises(power) && trust >= 0.0 && IsPeak(ParseReadings(entries, n), peak)
    ensures Reweighed(g, ObserveSmell(g, n, entries, trust, power, 0.0), n,
                      ScentWeight(ParseReadings(entries, n), peak, trust, power))
  {
    hide Total, Normalize, ParseReadings, Peak, Raises;
    EmptyGrid(g, n);
    var readings := ParseReadings(entries, n);
    PeakUnique(readings, peak, Peak(readings));
    var sharp := Sharpen(g, n, readings, peak, trust, power);
    SharpenedBounds(g, n, entries, trust, power);
    ReweighedTotal(g, sharp, n, 1.0 + trust);
    NormalizedIsBayes(g, sharp, n, ScentWeight(readings, peak, trust, power));
  }

  /** The shipped power. */
  const CUBE: Raising := (x: real) => Power(x, 3)

  /** With the shipped cube: the odds of two scented cells, the readings written as fractions of the peak. */
  lemma CubedScentOdds(g: Grid, n: nat, entries: seq<(string, Reading)>, peak: real, trust: real, a: Cell, b: Cell)
    requires Distribution(g, n) && trust >= 0.0 && IsPeak(ParseReadings(entries, n), peak) && peak > 0.0
    requires a in ParseReadings(entries, n) && b in ParseReadings(entries, n)
    ensures var after := ObserveSmell(g, n, entries, trust, CUBE, 0.0);
            var x, y := ParseReadings(entries, n)[a] / peak, ParseReadings(entries, n)[b] / peak;
            At(after, a) * (At(g, b) * (1.0 + trust * (y * y * y))) ==
            At(after, b) * (At(g, a) * (1.0 + trust * (x * x * x)))
  {
    hide ParseReadings, Distribution, At, ObserveSmell, Power, InOdds, Raises, ScentWeight, IsPeak;
    CubeRaises();
    ParsedInBounds(entries, n);
    var readings := ParseReadings(entries, n);
    ScentIsBayes(g, n, entries, peak, trust, CUBE);
    var x, y := readings[a] / peak, readings[b] / peak;
    CubedWeight(readings, peak, trust, a, x);
    CubedWeight(readings, peak, trust, b, y);
    OddsOf(g, ObserveSmell(g, n, entries, trust, CUBE, 0.0), ScentWeight(readings, peak, trust, CUBE), a, b,
           1.0 + trust * (x * x * x), 1.0 + trust * (y * y * y));
  }

  lemma CubeRaises()
    ensures Raises(CUBE)
  {
    hide Power;
    PowerOfOne(3);
    forall x: real | 0.0 <= x <= 1.0
      ensures 0.0 <= Power(x, 3) <= 1.0
    {
      PowerRange(x, 3);
    }
  }

  lemma CubedWeight(readings: map<Cell, real>, peak: real, trust: real, cell: Cell, x: real)
    requires peak > 0.0 && cell in readings && x == readings[cell] / peak
    ensures ScentWeight(readings, peak, trust, CUBE)(cell) == 1.0 + trust * (x * x * x)
  {
    hide Power;
    Cube(x);
    assert CUBE(x) == Power(x, 3) == x * x * x;
  }

  lemma OddsOf(before: Grid, after: Grid, weight: Weight, a: Cell, b: Cell, u: real, v: real)
    requires InOdds(before, after, weight, a, b) && weight(a) == u && weight(b) == v
    ensures At(after, a) * (At(before, b) * v) == At(after, b) * (At(before, a) * u)
  {
    hide At;
  }

  lemma Cube(x: real)
    ensures Power(x, 3) == x * x * x
  {
    assert Power(x, 0) == 1.0;
    assert Power(x, 1) == x * Power(x, 0) == x;
    assert Power(x, 2) == x * Power(x, 1) == x * x;
    assert Power(x, 3) == x * Power(x, 2) == x * (x * x);
  }

  /** A positive leak mixes in that share of the uniform belief; any other leak changes nothing. */
  ghost predicate Leaked(before: Grid, after: Grid, n: nat, leak: real) {
    Distribution(after, n) &&
    forall cell :: InBounds(cell, n) ==>
      At(after, cell) == if leak <= 0.0 then At(before, cell)
                         else At(before, cell) - leak * (At(before, cell) - 1.0 / (n as real * n as real))
  }

  lemma ScentLeaks(g: Grid, n: nat, entries: seq<(string, Reading)>, trust: real, power: Raising, leak: real)
    requires Distribution(g, n) && Raises(power) && trust >= 0.0 && leak <= 1.0
    ensures Leaked(ObserveSmell(g, n, entries, trust, power, 0.0), ObserveSmell(g, n, entries, trust, power, leak), n,
                   leak)
  {
    hide Total, Normalize, ParseReadings, Peak, Raises, Sharpen;
    EmptyGrid(g, n);
    ScentInfluence(g, n, entries, trust, power);
    var before := ObserveSmell(g, n, entries, trust, power, 0.0);
    if leak > 0.0 {
      LeakFloor(before, n, leak);
    }
  }

  // ----- hints -----

  function Gap(x: real, y: real): real { if x < y then y - x else x - y }

  /** The weight of a hint: one at the far side of the board, two at the near side or at the middle, linear between. */
  function HintWeight(zone: Option<Zone>, n: nat): Weight {
    var last, middle := n as real - 1.0, (n as real - 1.0) / 2.0;
    var span := if last > 1.0 then last else 1.0;
    (cell: Cell) =>
      match zone
      case None => 1.0
      case Some(North) => 1.0 + (last - cell.0 as real) / span
      case Some(South) => 1.0 + cell.0 as real / span
      case Some(West) => 1.0 + (last - cell.1 as real) / span
      case Some(East) => 1.0 + cell.1 as real / span
      case Some(Center) => 2.0 - (Gap(cell.0 as real, middle) + Gap(cell.1 as real, middle)) / span
  }

  lemma HintWeighs(zone: Option<Zone>, n: nat, cell: Cell)
    requires InBounds(cell, n)
    ensures Likelihood(Evidence(zone, n), cell) == HintWeight(zone, n)(cell)
  {
    hide CutScore;
    if zone.Some? {
      ScoreRange(zone.value, n, cell);
      assert (cell.0, cell.1) in Evidence(zone, n);
    }
  }

  lemma HintIsBayes(g: Grid, n: nat, zone: Option<Zone>)
    requires Distribution(g, n)
    ensures Reweighed(g, ObserveLikelihoods(g, n, Evidence(zone, n)), n, HintWeight(zone, n))
  {
    hide Total, Normalize, Evidence, Likelihood, HintWeight;
    EmptyGrid(g, n);
    var h := Weigh(g, n, Evidence(zone, n));
    WeighedBounds(g, n, zone);
    ReweighedTotal(g, h, n, 2.0);
    forall r, c | 0 <= r < n && 0 <= c < n
      ensures WeighedAt(g, h, HintWeight(zone, n), (r, c))
    {
      HintWeighs(zone, n, (r, c));
    }
    NormalizedIsBayes(g, h, n, HintWeight(zone, n));
  }

  // ----- exclusions -----

  /** The weight of knowing that the Police is not on this cell. */
  function Except(cell: Cell): Weight {
    (other: Cell) => if other == cell then 0.0 else 1.0
  }

  lemma ExclusionIsBayes(g: Grid, n: nat, cell: Cell)
    requires Distribution(g, n) && InBounds(cell, n) && At(g, cell) <= 1.0 - EPSILON
    ensures Reweighed(g, Exclude(g, n, cell), n, Except(cell))
  {
    hide Total, Normalize;
    EmptyGrid(g, n);
    TotalPut(g, cell.0, cell.1, 0.0);
    NormalizedIsBayes(g, Put(g, cell.0, cell.1, 0.0), n, Except(cell));
  }

  // ----- a whole message -----

  /**
   * The belief after a message is what one step of the Police, its scent packet with the leak, its hint, and the two
   * excluded cells make of the belief before, in this order, each by its own rule.
   */
  ghost predicate Explained(before: Grid, after: Grid, n: nat, entries: seq<(string, Reading)>, zone: Option<Zone>,
                            barrier: Option<Cell>, own: Cell, peak: real, trust: real, power: Raising, leak: real) {
    exists moved, smelled, leaked, hinted, walled ::
      Predicted(before, moved, n) &&
      Reweighed(moved, smelled, n, ScentWeight(ParseReadings(entries, n), peak, trust, power)) &&
      Leaked(smelled, leaked, n, leak) && Reweighed(leaked, hinted, n, HintWeight(zone, n)) &&
      (if barrier.Some? then Reweighed(hinted, walled, n, Except(barrier.value)) else walled == hinted) &&
      Reweighed(walled, after, n, Except(own))
  }

  /** With settled tuning every undecided message moves the belief by exactly these rules. */
  lemma BelieveIsBayes(g: Grid, n: nat, entries: seq<(string, Reading)>, zone: Option<Zone>, barrier: Option<Cell>,
                       own: Cell, peak: real, trust: real, power: Raising, leak: real)
    requires Settled(n, trust, leak) && Raises(power) && Distribution(g, n)
    requires InBounds(own, n) && (barrier.Some? ==> InBounds(barrier.value, n) && barrier.value != own)
    requires IsPeak(ParseReadings(entries, n), peak)
    ensures Explained(g, Believe(g, n, entries, zone, barrier, own, trust, power, leak), n, entries, zone, barrier,
                      own, peak, trust, power, leak)
  {
    hide Diffuse, ObserveSmell, ObserveLikelihoods, Evidence, Exclude, Predicted, Reweighed, Leaked, Margin, Raises;
    hide ScentWeight, HintWeight, Except, IsPeak, ParseReadings, Total;
    DiffuseIsDistribution(g, n);
    PredictionFollowsInflow(g, n);
    var moved := Diffuse(g, n);
    ScentIsBayes(moved, n, entries, peak, trust, power);
    ScentLeaks(moved, n, entries, trust, power, leak);
    var smelled := ObserveSmell(moved, n, entries, trust, power, 0.0);
    var leaked := ObserveSmell(moved, n, entries, trust, power, leak);
    LeakedKeeps(smelled, leaked, n, leak);
    HintIsBayes(leaked, n, zone);
    var hinted := ObserveLikelihoods(leaked, n, Evidence(zone, n));
    var walled := if barrier.Some? then Exclude(hinted, n, barrier.value) else hinted;
    HintInfluence(leaked, n, zone);
    BelieveHolds(g, n, entries, zone, barrier, own, trust, power, leak);
    BelieveRulesIff(g, n, entries, zone, barrier, own, trust, power, leak);
    if barrier.Some? {
      ExclusionIsBayes(hinted, n, barrier.value);
      ExcludeKeepsDistribution(hinted, n, barrier.value);
    }
    ExcludeWorksIff(walled, n, own);
    ExclusionIsBayes(walled, n, own);
  }

  lemma LeakedKeeps(before: Grid, after: Grid, n: nat, leak: real)
    requires Leaked(before, after, n, leak)
    ensures Distribution(after, n)
  {
  }
}

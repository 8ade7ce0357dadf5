/** Inputs on the two-by-two board that show when an exclusion falls back to the uniform grid. */
module BeliefFailure {
  import opened Board
  import opened Grids
  import opened Belief
  import opened BeliefBounds
  import opened BeliefExclusions
  import opened BeliefTuning
  import opened BeliefGrids
  import opened Diffusion
  import opened Hints
  import Wire

  // ----- grids of two rows -----

  function Two(a: real, b: real, c: real, d: real): (g: Grid)
    ensures Square(g, 2)
  {
    [[a, b], [c, d]]
  }

  lemma TwoRow(a: real, b: real)
    ensures RowSum([a, b]) == a + b
  {
    var row := [a, b];
    assert row[..1] == [a] && [a][..0] == [];
    assert RowSum([a]) == RowSum([]) + a;
    assert RowSum(row) == RowSum(row[..1]) + b;
  }

  lemma TwoTotal(a: real, b: real, c: real, d: real)
    ensures Total(Two(a, b, c, d)) == a + b + c + d
  {
    hide RowSum;
    var g, top := Two(a, b, c, d), [[a, b]];
    assert g[..1] == top && top[..0] == [];
    assert Total(top) == Total([]) + RowSum([a, b]);
    assert Total(g) == Total(g[..1]) + RowSum([c, d]);
    TwoRow(a, b);
    TwoRow(c, d);
  }

  lemma IsTwo(g: Grid)
    requires Square(g, 2)
    ensures g == Two(g[0][0], g[0][1], g[1][0], g[1][1])
  {
    SameCellsEqual(g, Two(g[0][0], g[0][1], g[1][0], g[1][1]), 2);
  }

  lemma TwoNormalized(a: real, b: real, c: real, d: real)
    requires a + b + c + d >= EPSILON
    ensures var t := a + b + c + d; Normalize(Two(a, b, c, d), 2) == Two(a / t, b / t, c / t, d / t)
  {
    var t := a + b + c + d;
    TwoTotal(a, b, c, d);
    NormalizeAt(Two(a, b, c, d), 2);
    SameCellsEqual(Normalize(Two(a, b, c, d), 2), Two(a / t, b / t, c / t, d / t), 2);
  }

  lemma ThreePlaces(s: Cell)
    requires InBounds(s, 2)
    ensures |Reach(s, 2)| == 3
  {
    hide Reach;
    ReachAtLeastThree(s, 2);
    ReachExact(s, 2);
    var cells := Reach(s, 2);
    forall i | 0 <= i < |cells|
      ensures cells[i] in {s, (1 - s.0, s.1), (s.0, 1 - s.1)}
    {
      assert cells[i] in cells;
    }
    NoMoreThan(cells, {s, (1 - s.0, s.1), (s.0, 1 - s.1)});
  }

  lemma {:induction false} NoMoreThan(cells: seq<Cell>, within: set<Cell>)
    requires NoRepeats(cells) && forall i :: 0 <= i < |cells| ==> cells[i] in within
    ensures |cells| <= |within|
  {
    if cells != [] {
      NoMoreThan(cells[..|cells| - 1], within - {cells[|cells| - 1]});
    }
  }

  /** On the two-by-two board every cell sends a third of its mass to itself and to both neighbours. */
  lemma TwoShares(g: Grid, s: Cell)
    requires Square(g, 2)
    ensures Share(g, 2, s) == if InBounds(s, 2) && At(g, s) >= EPSILON then At(g, s) / 3.0 else 0.0
  {
    hide Reach;
    if InBounds(s, 2) {
      ThreePlaces(s);
    }
  }

  // ----- the worst message -----

  const CORNER: Grid := Two(1.0, 0.0, 0.0, 0.0)

  lemma CornerIsDistribution()
    ensures Distribution(CORNER, 2)
  {
    TwoTotal(1.0, 0.0, 0.0, 0.0);
  }

  lemma CornerShare(s: Cell)
    ensures Share(CORNER, 2, s) == if s == (0, 0) then 1.0 / 3.0 else 0.0
  {
    TwoShares(CORNER, s);
  }

  /** A Police known to stand in the corner is, one turn later, in one of three cells. */
  lemma CornerDiffused()
    ensures Diffuse(CORNER, 2) == Two(1.0 / 3.0, 1.0 / 3.0, 1.0 / 3.0, 0.0)
  {
    hide Share, Normalize;
    forall s: Cell
      ensures Share(CORNER, 2, s) == if s == (0, 0) then 1.0 / 3.0 else 0.0
    {
      CornerShare(s);
    }
    SameCellsEqual(Spread(CORNER, 2), Two(1.0 / 3.0, 1.0 / 3.0, 1.0 / 3.0, 0.0), 2);
    TwoNormalized(1.0 / 3.0, 1.0 / 3.0, 1.0 / 3.0, 0.0);
  }

  /** The packet that smells of the corner alone. */
  const SMELL: seq<(string, Reading)> := [("0,0", Number(1.0))]

  const SCENTED: map<Cell, real> := map[(0, 0) := 1.0]

  lemma SmellParsed()
    ensures ParseReadings(SMELL, 2) == SCENTED
  {
    hide Wire.ParseCell;
    Wire.CellRoundTrip((0, 0), 2);
    assert Wire.FormatCell((0, 0)) == "0" + "," + "0" == "0,0";
    assert SMELL[..0] == [];
  }

  lemma ScentedPeak()
    ensures Peak(SCENTED) == 1.0
  {
    assert (0, 0) in SCENTED && SCENTED[(0, 0)] == 1.0;
    PeakUnique(SCENTED, Peak(SCENTED), 1.0);
  }

  lemma TwoSharpened(a: real, b: real, c: real, d: real, trust: real, power: Raising)
    requires Raises(power)
    ensures Sharpen(Two(a, b, c, d), 2, SCENTED, 1.0, trust, power) == Two((1.0 + trust) * a, b, c, d)
  {
    SameCellsEqual(Sharpen(Two(a, b, c, d), 2, SCENTED, 1.0, trust, power), Two((1.0 + trust) * a, b, c, d), 2);
  }

  /** A cell of the two-by-two board after the leak. */
  function Mixed(leak: real, x: real): real {
    (1.0 - Applied(leak)) * x + Applied(leak) / 4.0
  }

  lemma LeakedCell(g: Grid, leak: real, r: int, c: int)
    requires Square(g, 2) && leak <= 1.0 && 0 <= r < 2 && 0 <= c < 2
    ensures Leak(g, 2, leak)[r][c] == Mixed(leak, g[r][c])
  {
    if leak > 0.0 {
      assert UniformMass(2) == 0.25;
      LeakedAt(g, 2, leak, (r, c));
    }
  }

  lemma TwoLeaked(a: real, b: real, c: real, d: real, leak: real)
    requires leak <= 1.0
    ensures Leak(Two(a, b, c, d), 2, leak) == Two(Mixed(leak, a), Mixed(leak, b), Mixed(leak, c), Mixed(leak, d))
  {
    hide Leak, Mixed;
    var g := Two(a, b, c, d);
    LeakedCell(g, leak, 0, 0);
    LeakedCell(g, leak, 0, 1);
    LeakedCell(g, leak, 1, 0);
    LeakedCell(g, leak, 1, 1);
    IsTwo(Leak(g, 2, leak));
  }

  lemma NorthLikelihood(r: int, c: int)
    requires 0 <= r < 2 && 0 <= c < 2
    ensures Likelihood(Evidence(Some(North), 2), (r, c)) == if r == 0 then 2.0 else 1.0
  {
    hide CutScore;
    ScoreRange(North, 2, (r, c));
    assert (r, c) in Evidence(Some(North), 2);
    assert (2 - 1 - r) as real == if r == 0 then 1.0 else 0.0;
  }

  lemma TwoWeighedNorth(a: real, b: real, c: real, d: real)
    ensures Weigh(Two(a, b, c, d), 2, Evidence(Some(North), 2)) == Two(2.0 * a, 2.0 * b, c, d)
  {
    hide Evidence, Likelihood, Weigh;
    var g, e := Two(a, b, c, d), Evidence(Some(North), 2);
    NorthLikelihood(0, 0);
    NorthLikelihood(0, 1);
    NorthLikelihood(1, 0);
    NorthLikelihood(1, 1);
    WeighAtCell(g, 2, e, 0, 0);
    WeighAtCell(g, 2, e, 0, 1);
    WeighAtCell(g, 2, e, 1, 0);
    WeighAtCell(g, 2, e, 1, 1);
    IsTwo(Weigh(g, 2, e));
  }

  // ----- the fused belief of the worst message, and of the first message of a game -----

  /** Scent and leak on two-by-two grids, from the prediction. */
  lemma TwoSmelled(a: real, b: real, c: real, d: real, trust: real, power: Raising, leak: real)
    requires Raises(power) && leak <= 1.0 && (1.0 + trust) * a + b + c + d >= EPSILON
    ensures var t := (1.0 + trust) * a + b + c + d;
            ObserveSmell(Two(a, b, c, d), 2, SMELL, trust, power, leak) ==
            Two(Mixed(leak, (1.0 + trust) * a / t), Mixed(leak, b / t), Mixed(leak, c / t), Mixed(leak, d / t))
  {
    hide Sharpen, Normalize, Leak, ParseReadings, Mixed, Two;
    SmellParsed();
    ScentedPeak();
    TwoSharpened(a, b, c, d, trust, power);
    TwoNormalized((1.0 + trust) * a, b, c, d);
    var t := (1.0 + trust) * a + b + c + d;
    TwoLeaked((1.0 + trust) * a / t, b / t, c / t, d / t, leak);
  }

  /** The tuning condition is the comparison of masses in the worst message. */
  lemma MarginIsWorst(trust: real, leak: real)
    requires trust >= 0.0
    ensures var a := (1.0 + trust) * (1.0 / 3.0);
            LeavesMass(Applied(leak), a, 1.0 / 3.0, a + 1.0 / 3.0 + 1.0 / 3.0) <==> Margin(trust, leak)
  {
    var l := Applied(leak);
    var a := (1.0 + trust) * (1.0 / 3.0);
    assert a + 1.0 / 3.0 + 1.0 / 3.0 == (3.0 + trust) / 3.0;
    assert (1.0 - l) * a == (1.0 - l) * (1.0 + trust) / 3.0;
    assert l * ((3.0 + trust) / 3.0) == l * (3.0 + trust) / 3.0;
  }

  /** Shares o, q, r, s of the four cells before the hint for the north, which the own cell and the wall gain from. */
  lemma NorthSurvives(o: real, q: real, r: real, s: real)
    requires o >= 0.0 && q >= 0.0 && r >= 0.0 && s >= 0.0 && o + q + r + s == 1.0
    ensures var fused := Normalize(Two(2.0 * o, 2.0 * q, r, s), 2);
            Survives(fused, Some((0, 1)), (0, 0)) ==> Ahead(o, r + s)
  {
    hide Normalize;
    var w := 2.0 * o + 2.0 * q + r + s;
    TwoNormalized(2.0 * o, 2.0 * q, r, s);
    if Survives(Normalize(Two(2.0 * o, 2.0 * q, r, s), 2), Some((0, 1)), (0, 0)) {
      GuardScaled(2.0 * o, 2.0 * q, r + s, w);
    }
  }

  lemma GuardScaled(p: real, q: real, rest: real, total: real)
    requires total >= 1.0 && p + q + rest == total && p >= 0.0 && q >= 0.0 && rest >= 0.0
    requires EPSILON * (1.0 - q / total) <= 1.0 - q / total - p / total
    ensures EPSILON * p <= (1.0 - EPSILON) * rest
  {
    var x, y := p / total, q / total;
    assert x * total == p && y * total == q;
    ProductNonNegative((1.0 - y - x) - EPSILON * (1.0 - y), total);
    assert ((1.0 - y - x) - EPSILON * (1.0 - y)) * total == (total - q - p) - EPSILON * (total - q);
  }

  /** The worst message's belief after prediction, scent and leak. */
  function WorstLeaked(trust: real, leak: real): (h: Grid)
    requires trust >= 0.0
    ensures Square(h, 2)
  {
    var a, b := (1.0 + trust) * (1.0 / 3.0), 1.0 / 3.0;
    var t := a + b + b + 0.0;
    Two(Mixed(leak, a / t), Mixed(leak, b / t), Mixed(leak, b / t), Mixed(leak, 0.0 / t))
  }

  lemma WorstSmelled(trust: real, power: Raising, leak: real)
    requires trust >= 0.0 && Raises(power) && leak <= 1.0
    ensures ObserveSmell(Diffuse(CORNER, 2), 2, SMELL, trust, power, leak) == WorstLeaked(trust, leak)
    ensures Distribution(WorstLeaked(trust, leak), 2)
  {
    hide Sharpen, Normalize, ParseReadings, Mixed, Diffuse, Total, Leak;
    CornerDiffused();
    TwoSmelled(1.0 / 3.0, 1.0 / 3.0, 1.0 / 3.0, 0.0, trust, power, leak);
    CornerIsDistribution();
    DiffuseIsDistribution(CORNER, 2);
    ScentInfluence(Diffuse(CORNER, 2), 2, SMELL, trust, power);
    var readings := ParseReadings(SMELL, 2);
    var sharp := Normalize(Sharpen(Diffuse(CORNER, 2), 2, readings, Peak(readings), trust, power), 2);
    LeakLeaves(sharp, 2, leak, (0, 0), (0, 0), Least(Others(sharp, 2, (0, 0), (0, 0))));
  }

  function Least(x: real): real {
    if x < 0.5 then x else 0.5
  }

  /** In the worst message the own cell and the wall are ruled out exactly when trust and leak have the margin. */
  lemma WorstMessageIff(trust: real, power: Raising, leak: real)
    requires trust >= 0.0 && Raises(power) && leak <= 1.0
    ensures Rules(Believe(CORNER, 2, SMELL, Some(North), Some((0, 1)), (0, 0), trust, power, leak), 2, (0, 0),
                  Some((0, 1)))
            <==> Margin(trust, leak)
  {
    hide Believe, Rules, Survives, Margin, Diffuse, ObserveSmell;
    CornerIsDistribution();
    if Margin(trust, leak) {
      BelieveHolds(CORNER, 2, SMELL, Some(North), Some((0, 1)), (0, 0), trust, power, leak);
    } else {
      BelieveRulesIff(CORNER, 2, SMELL, Some(North), Some((0, 1)), (0, 0), trust, power, leak);
      WorstSmelled(trust, power, leak);
      WorstOutweighs(trust, leak);
    }
  }

  lemma WorstOutweighs(trust: real, leak: real)
    requires trust >= 0.0 && leak <= 1.0 && !Margin(trust, leak) && Distribution(WorstLeaked(trust, leak), 2)
    ensures !Survives(ObserveLikelihoods(WorstLeaked(trust, leak), 2, Evidence(Some(North), 2)), Some((0, 1)), (0, 0))
  {
    hide Survives, Margin, Total, Normalize, Weigh, Evidence, Leaves, LeavesMass;
    var a, b := (1.0 + trust) * (1.0 / 3.0), 1.0 / 3.0;
    var t := a + b + b + 0.0;
    var h := WorstLeaked(trust, leak);
    TwoTotal(h[0][0], h[0][1], h[1][0], h[1][1]);
    TwoWeighedNorth(h[0][0], h[0][1], h[1][0], h[1][1]);
    NorthSurvives(h[0][0], h[0][1], h[1][0], h[1][1]);
    MarginIsWorst(trust, leak);
    SharesAreMasses(Applied(leak), a, b, t);
    LeavesIsAhead(leak, a / t, b / t, t);
  }

  lemma LeavesIsAhead(leak: real, x: real, y: real, t: real)
    requires t > 0.0
    ensures Ahead(Mixed(leak, x), Mixed(leak, y) + Mixed(leak, 0.0 / t)) <==> Leaves(Applied(leak), x, y)
  {
    assert 0.0 / t == 0.0;
  }

  // ----- the tuning, decided -----

  /** Every message, from every belief, rules out the own cell and the new barrier. */
  ghost predicate AlwaysRulesOut(n: nat, trust: real, power: Raising, leak: real) {
    forall g, entries, zone, barrier: Option<Cell>, own
      {:trigger Believe(g, n, entries, zone, barrier, own, trust, power, leak)} ::
      Distribution(g, n) && InBounds(own, n) &&
      (barrier.Some? ==> InBounds(barrier.value, n) && barrier.value != own) ==>
      Rules(Believe(g, n, entries, zone, barrier, own, trust, power, leak), n, own, barrier)
  }

  /**
   * The exclusions hold in every message on every board of size at least two exactly when trust and leak have the
   * margin.
   */
  lemma TuningIff(trust: real, power: Raising, leak: real)
    requires trust >= 0.0 && Raises(power) && leak <= 1.0
    ensures (forall n: nat :: n >= 2 ==> AlwaysRulesOut(n, trust, power, leak)) <==> Margin(trust, leak)
    ensures AlwaysRulesOut(2, trust, power, leak) <==> Margin(trust, leak)
  {
    hide Believe, Rules, Margin, Distribution, Two;
    CornerIsDistribution();
    WorstMessageIff(trust, power, leak);
    if Margin(trust, leak) {
      forall n: nat | n >= 2
        ensures AlwaysRulesOut(n, trust, power, leak)
      {
        MarginRulesOut(n, trust, power, leak);
      }
    } else {
      assert !AlwaysRulesOut(2, trust, power, leak);
    }
  }

  lemma MarginRulesOut(n: nat, trust: real, power: Raising, leak: real)
    requires Settled(n, trust, leak) && Raises(power)
    ensures AlwaysRulesOut(n, trust, power, leak)
  {
    hide Believe, Rules, Margin, Distribution;
    forall g, entries, zone, barrier: Option<Cell>, own | Distribution(g, n) && InBounds(own, n) &&
      (barrier.Some? ==> InBounds(barrier.value, n) && barrier.value != own)
      ensures Rules(Believe(g, n, entries, zone, barrier, own, trust, power, leak), n, own, barrier)
    {
      BelieveHolds(g, n, entries, zone, barrier, own, trust, power, leak);
    }
  }

  // ----- the first message of a game -----

  lemma UniformDiffused()
    ensures Diffuse(Uniform(2), 2) == Two(0.25, 0.25, 0.25, 0.25) == Uniform(2)
  {
    hide Share, Normalize;
    var g := Uniform(2);
    assert UniformMass(2) == 0.25;
    forall s: Cell
      ensures Share(g, 2, s) == if InBounds(s, 2) then 0.25 / 3.0 else 0.0
    {
      TwoShares(g, s);
    }
    SameCellsEqual(g, Two(0.25, 0.25, 0.25, 0.25), 2);
    SameCellsEqual(Spread(g, 2), Two(0.25, 0.25, 0.25, 0.25), 2);
    TwoNormalized(0.25, 0.25, 0.25, 0.25);
  }

  /** From the opening belief, a first packet that smells of the own cell alone, no hint and no leak. */
  lemma FirstFused(trust: real, power: Raising)
    requires trust >= 0.0 && Raises(power)
    ensures var fused := Fuse(Uniform(2), 2, SMELL, None, trust, power, 0.0);
            Distribution(fused, 2) && At(fused, (0, 0)) == (1.0 + trust) / (4.0 + trust)
  {
    hide Diffuse, ObserveSmell, Total, Distribution;
    UniformIsDistribution(2);
    FuseLeaves(Uniform(2), 2, SMELL, None, trust, power, 0.0, (0, 0), (0, 0));
    UniformDiffused();
    TwoSmelled(0.25, 0.25, 0.25, 0.25, trust, power, 0.0);
    var t := (1.0 + trust) * 0.25 + 0.25 + 0.25 + 0.25;
    FirstShare(trust, t);
    var g := Two((1.0 + trust) * 0.25 / t, 0.25 / t, 0.25 / t, 0.25 / t);
    assert ObserveSmell(Diffuse(Uniform(2), 2), 2, SMELL, trust, power, 0.0) == g;
    SameCellsEqual(Weigh(g, 2, map[]), g, 2);
    TwoNormalized((1.0 + trust) * 0.25 / t, 0.25 / t, 0.25 / t, 0.25 / t);
  }

  lemma FirstShare(trust: real, t: real)
    requires trust >= 0.0 && t == (1.0 + trust) * 0.25 + 0.25 + 0.25 + 0.25
    ensures (1.0 + trust) * 0.25 / t == (1.0 + trust) / (4.0 + trust)
    ensures (1.0 + trust) * 0.25 / t + 0.25 / t + 0.25 / t + 0.25 / t == 1.0
  {
    var q := 0.25 / t;
    assert q * t == 0.25;
    assert (1.0 + trust) * 0.25 / t == (1.0 + trust) * q;
    assert t == (4.0 + trust) / 4.0;
    assert q * (4.0 + trust) == 1.0;
  }
}

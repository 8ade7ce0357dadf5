/** What a message can do to the exclusions on a board of any size, without a leak. */
module BeliefSizes {
  import opened Board
  import opened Grids
  import opened Belief
  import opened BeliefBounds
  import opened BeliefExclusions
  import opened BeliefTuning
  import opened BeliefFailure
  import opened BeliefGrids
  import opened Diffusion
  import opened Hints
  import Wire

  /** The own cell of the message, below the corner; the wall lies on the other side of the corner. */
  const OWN: Cell := (1, 0)
  const WALL: Cell := (0, 1)

  /** A grid with mass a on the own cell, b on the corner and c on the wall only. */
  function Three(n: nat, a: real, b: real, c: real): (g: Grid)
    ensures Square(g, n)
  {
    Tabulate(n, (i: int, j: int) => if (i, j) == OWN then a else if (i, j) == (0, 0) then b
             else if (i, j) == WALL then c else 0.0)
  }

  lemma ThreeTotal(n: nat, a: real, b: real, c: real)
    requires n >= 2
    ensures Total(Three(n, a, b, c)) == a + b + c
  {
    hide Total;
    var zero := Tabulate(n, (i: int, j: int) => 0.0);
    TotalConstant(zero, n, n, 0.0);
    var one := Put(zero, 1, 0, a);
    TotalPut(zero, 1, 0, a);
    var two := Put(one, 0, 0, b);
    TotalPut(one, 0, 0, b);
    TotalPut(two, 0, 1, c);
    SameCellsEqual(Put(two, 0, 1, c), Three(n, a, b, c), n);
  }

  lemma ThreeNormalized(n: nat, a: real, b: real, c: real)
    requires n >= 2 && a + b + c >= EPSILON
    ensures var t := a + b + c; Normalize(Three(n, a, b, c), n) == Three(n, a / t, b / t, c / t)
  {
    hide Total, Normalize;
    var g, t := Three(n, a, b, c), a + b + c;
    ThreeTotal(n, a, b, c);
    forall i, j | 0 <= i < n && 0 <= j < n
      ensures Normalize(g, n)[i][j] == Three(n, a / t, b / t, c / t)[i][j]
    {
      NormalizedCell(g, n, (i, j));
    }
    SameCellsEqual(Normalize(g, n), Three(n, a / t, b / t, c / t), n);
  }

  /** A Police known to stand in the corner. */
  function Corner(n: nat): (g: Grid)
    ensures Square(g, n)
  {
    Three(n, 0.0, 1.0, 0.0)
  }

  lemma CornerKnown(n: nat)
    requires n >= 2
    ensures Distribution(Corner(n), n)
  {
    hide Total;
    ThreeTotal(n, 0.0, 1.0, 0.0);
  }

  lemma CornerReaches(n: nat)
    requires n >= 2
    ensures |Reach((0, 0), n)| == 3
  {
    hide Reach;
    ReachAtLeastThree((0, 0), n);
    ReachExact((0, 0), n);
    var cells := Reach((0, 0), n);
    forall i | 0 <= i < |cells|
      ensures cells[i] in {(0, 0), OWN, WALL}
    {
      assert cells[i] in cells;
    }
    NoMoreThan(cells, {(0, 0), OWN, WALL});
  }

  lemma CornerSends(n: nat, s: Cell)
    requires n >= 2
    ensures Share(Corner(n), n, s) == if s == (0, 0) then 1.0 / 3.0 else 0.0
  {
    hide Reach;
    CornerReaches(n);
  }

  lemma CornerPredicted(n: nat)
    requires n >= 2
    ensures Diffuse(Corner(n), n) == Three(n, 1.0 / 3.0, 1.0 / 3.0, 1.0 / 3.0)
  {
    hide Share, Normalize, Corner;
    forall s: Cell
      ensures Share(Corner(n), n, s) == if s == (0, 0) then 1.0 / 3.0 else 0.0
    {
      CornerSends(n, s);
    }
    SameCellsEqual(Spread(Corner(n), n), Three(n, 1.0 / 3.0, 1.0 / 3.0, 1.0 / 3.0), n);
    ThreeNormalized(n, 1.0 / 3.0, 1.0 / 3.0, 1.0 / 3.0);
  }

  /** The packet that smells of the own cell alone. */
  const TRACE: seq<(string, Reading)> := [("1,0", Number(1.0))]
  const TRACED: map<Cell, real> := map[OWN := 1.0]

  lemma TraceParsed(n: nat)
    requires n >= 2
    ensures ParseReadings(TRACE, n) == TRACED && Peak(TRACED) == 1.0
  {
    hide Wire.ParseCell;
    Wire.CellRoundTrip(OWN, n);
    assert Wire.FormatCell(OWN) == "1" + "," + "0" == "1,0";
    assert TRACE[..0] == [];
    assert OWN in TRACED && TRACED[OWN] == 1.0;
    PeakUnique(TRACED, Peak(TRACED), 1.0);
  }

  lemma ThreeSharpened(n: nat, a: real, b: real, c: real, trust: real, power: Raising)
    requires n >= 2 && Raises(power)
    ensures Sharpen(Three(n, a, b, c), n, TRACED, 1.0, trust, power) == Three(n, (1.0 + trust) * a, b, c)
  {
    hide CellBoost, Sharpen;
    var g, h := Three(n, a, b, c), Sharpen(Three(n, a, b, c), n, TRACED, 1.0, trust, power);
    forall i, j | 0 <= i < n && 0 <= j < n
      ensures h[i][j] == Three(n, (1.0 + trust) * a, b, c)[i][j]
    {
      SharpenAtCell(g, n, TRACED, 1.0, trust, power, i, j);
      TraceBoost(trust, power, (i, j));
    }
    SameCellsEqual(h, Three(n, (1.0 + trust) * a, b, c), n);
  }

  lemma TraceBoost(trust: real, power: Raising, cell: Cell)
    requires Raises(power)
    ensures CellBoost(TRACED, 1.0, trust, power, cell) == if cell == OWN then 1.0 + trust else 1.0
  {
    assert 1.0 / 1.0 == 1.0;
  }

  /** How much a hint for the south favours the second row over the first. */
  function SouthGain(n: nat): (gain: real)
    ensures 1.0 < gain <= 2.0
  {
    1.0 + 1.0 / Span(n)
  }

  lemma SouthLikelihood(n: nat, cell: Cell)
    requires n >= 2 && InBounds(cell, n) && cell.0 <= 1
    ensures Likelihood(Evidence(Some(South), n), cell) == if cell.0 == 1 then SouthGain(n) else 1.0
  {
    hide CutScore;
    ScoreRange(South, n, cell);
    assert (cell.0, cell.1) in Evidence(Some(South), n);
    assert 0.0 / Span(n) == 0.0;
  }

  lemma ThreeWeighed(n: nat, a: real, b: real, c: real, gained: real)
    requires n >= 2 && gained == a * SouthGain(n)
    ensures Weigh(Three(n, a, b, c), n, Evidence(Some(South), n)) == Three(n, gained, b, c)
  {
    hide Evidence, Likelihood, Weigh, SouthGain;
    var g, e := Three(n, a, b, c), Evidence(Some(South), n);
    forall i, j | 0 <= i < n && 0 <= j < n
      ensures Weigh(g, n, e)[i][j] == Three(n, gained, b, c)[i][j]
    {
      WeighAtCell(g, n, e, i, j);
      if i <= 1 {
        SouthLikelihood(n, (i, j));
      }
    }
    SameCellsEqual(Weigh(g, n, e), Three(n, gained, b, c), n);
  }

  /** The own cell's share of the belief after prediction and scent, and that of each of the two others. */
  function OwnShare(trust: real): real
    requires trust >= 0.0
  {
    (1.0 + trust) / (3.0 + trust)
  }

  function OtherShare(trust: real): real
    requires trust >= 0.0
  {
    1.0 / (3.0 + trust)
  }

  /** The own cell's share once the hint has been weighed in. */
  function OwnWeight(n: nat, trust: real): real
    requires trust >= 0.0
  {
    OwnShare(trust) * SouthGain(n)
  }

  lemma Shares(trust: real)
    requires trust >= 0.0
    ensures OwnShare(trust) >= 0.0 && OtherShare(trust) > 0.0 &&
            OwnShare(trust) + OtherShare(trust) + OtherShare(trust) == 1.0
    ensures OwnShare(trust) == (1.0 + trust) * OtherShare(trust)
    ensures var a, b := (1.0 + trust) * (1.0 / 3.0), 1.0 / 3.0;
            a / (a + b + b) == OwnShare(trust) && b / (a + b + b) == OtherShare(trust)
  {
    var t, p, q := 3.0 + trust, OwnShare(trust), OtherShare(trust);
    assert p * t == 1.0 + trust && q * t == 1.0;
    QuotientIs(1.0 + trust, t, (1.0 + trust) * q);
    assert (1.0 + trust) * q == q + trust * q;
    assert q * t == 3.0 * q + trust * q;
    var a, b := (1.0 + trust) * (1.0 / 3.0), 1.0 / 3.0;
    assert a + b + b == t / 3.0;
    QuotientIs(a, t / 3.0, p);
    QuotientIs(b, t / 3.0, q);
  }

  lemma SouthSmelled(n: nat, trust: real, power: Raising, leak: real)
    requires n >= 2 && trust >= 0.0 && Raises(power) && leak <= 0.0
    ensures ObserveSmell(Diffuse(Corner(n), n), n, TRACE, trust, power, leak)
            == Three(n, OwnShare(trust), OtherShare(trust), OtherShare(trust))
  {
    hide Sharpen, Normalize, ParseReadings, Diffuse, Three, Corner, Peak, OwnShare, OtherShare;
    var a, b := (1.0 + trust) * (1.0 / 3.0), 1.0 / 3.0;
    CornerPredicted(n);
    TraceParsed(n);
    ThreeSharpened(n, b, b, b, trust, power);
    ThreeNormalized(n, a, b, b);
    Shares(trust);
  }

  /** The belief after prediction, scent and the hint for the south. */
  lemma SouthFused(n: nat, trust: real, power: Raising, leak: real)
    requires n >= 2 && trust >= 0.0 && Raises(power) && leak <= 0.0
    ensures Fuse(Corner(n), n, TRACE, Some(South), trust, power, leak)
            == Normalize(Three(n, OwnWeight(n, trust), OtherShare(trust), OtherShare(trust)), n)
  {
    hide Normalize, Weigh, Diffuse, ObserveSmell, Three, Corner, Evidence, SouthGain, OwnShare, OtherShare;
    SouthSmelled(n, trust, power, leak);
    ThreeWeighed(n, OwnShare(trust), OtherShare(trust), OtherShare(trust), OwnWeight(n, trust));
  }

  /** Without a leak: the own cell, weighed by trust and hint, against the corner. */
  predicate SizeMargin(n: nat, trust: real) {
    EPSILON * (SouthGain(n) * (1.0 + trust) + 1.0) <= 1.0
  }

  /** Shares p and q of own cell and of each of the two others, before the hint. */
  lemma SouthSurvivesIff(n: nat, gain: real, p: real, q: real, x: real)
    requires n >= 2 && 1.0 < gain <= 2.0 && p >= 0.0 && q > 0.0 && p + q + q == 1.0 && x == p * gain
    ensures Survives(Normalize(Three(n, x, q, q), n), Some(WALL), OWN) <==> EPSILON * (x + q) <= q
  {
    hide Normalize;
    ProductNonNegative(gain - 1.0, p);
    assert (gain - 1.0) * p == p * gain - p;
    ThreeNormalized(n, x, q, q);
    hide Survives;
    ThreeSurvives(Normalize(Three(n, x, q, q), n), x, q, x + q + q);
  }

  lemma ThreeSurvives(fused: Grid, x: real, q: real, total: real)
    requires x >= 0.0 && q > 0.0 && total == x + q + q >= 1.0
    requires At(fused, OWN) == x / total && At(fused, WALL) == q / total
    ensures Survives(fused, Some(WALL), OWN) <==> EPSILON * (x + q) <= q
  {
    var u, v := x / total, q / total;
    assert u * total == x && v * total == q;
    RatioBelow(q, total);
    ScaledGuard(u, v, x, q, total);
  }

  lemma ScaledGuard(u: real, v: real, x: real, q: real, total: real)
    requires total >= 1.0 && total == x + q + q && u * total == x && v * total == q
    ensures EPSILON * (1.0 - v) <= 1.0 - v - u <==> EPSILON * (x + q) <= q
  {
    var gap := 1.0 - v - u - EPSILON * (1.0 - v);
    assert gap * total == total - v * total - u * total - EPSILON * (total - v * total);
    if gap * total >= 0.0 {
      SignOfFactor(gap, total);
    } else if gap >= 0.0 {
      ProductNonNegative(gap, total);
    }
  }

  /**
   * On every board of size at least two, without a leak, this message rules out the own cell and the new barrier
   * exactly when the trust is within the margin of that size; so beyond it the exclusions fail there.
   */
  lemma SizedMessageIff(n: nat, trust: real, power: Raising, leak: real)
    requires n >= 2 && trust >= 0.0 && Raises(power) && leak <= 0.0
    ensures Rules(Believe(Corner(n), n, TRACE, Some(South), Some(WALL), OWN, trust, power, leak), n, OWN, Some(WALL))
            <==> SizeMargin(n, trust)
  {
    hide Believe, Rules, Survives, SizeMargin, Corner, SouthGain, Fuse, Distribution, Three, Normalize;
    CornerKnown(n);
    BelieveRulesIff(Corner(n), n, TRACE, Some(South), Some(WALL), OWN, trust, power, leak);
    SouthFused(n, trust, power, leak);
    SouthShareIff(n, trust);
  }

  lemma SouthShareIff(n: nat, trust: real)
    requires n >= 2 && trust >= 0.0
    ensures Survives(Normalize(Three(n, OwnWeight(n, trust), OtherShare(trust), OtherShare(trust)), n), Some(WALL), OWN)
            <==> SizeMargin(n, trust)
  {
    hide Survives, SizeMargin, SouthGain, Three, Normalize, OwnShare, OtherShare;
    Shares(trust);
    SouthSurvivesIff(n, SouthGain(n), OwnShare(trust), OtherShare(trust), OwnWeight(n, trust));
    SizeMarginIs(n, trust, OwnShare(trust), OtherShare(trust), OwnWeight(n, trust));
  }

  lemma SizeMarginIs(n: nat, trust: real, p: real, q: real, x: real)
    requires q > 0.0 && p == (1.0 + trust) * q && x == p * SouthGain(n)
    ensures EPSILON * (x + q) <= q <==> SizeMargin(n, trust)
  {
    var gain := SouthGain(n);
    hide SouthGain;
    var left := 1.0 - EPSILON * (gain * (1.0 + trust) + 1.0);
    Regroup(gain, 1.0 + trust, q);
    assert left * q == q - EPSILON * ((gain * (1.0 + trust)) * q + q);
    if left * q >= 0.0 {
      SignOfFactor(left, q);
    } else if left >= 0.0 {
      ProductNonNegative(left, q);
    }
  }

  lemma Regroup(x: real, y: real, z: real)
    ensures x * (y * z) == (x * y) * z
  {
  }

  /** Without a leak, per size: a trust of at most 499999998.5 is always safe, and one of 999999998 or more never is. */
  lemma SizedTuning(n: nat, trust: real, power: Raising, leak: real)
    requires n >= 2 && trust >= 0.0 && Raises(power) && leak <= 0.0
    ensures trust <= 499999998.5 ==> AlwaysRulesOut(n, trust, power, leak)
    ensures AlwaysRulesOut(n, trust, power, leak) ==> SizeMargin(n, trust) && trust < 999999998.0
  {
    hide Believe, Rules, SizeMargin, Distribution, Corner, Margin;
    if trust <= 499999998.5 {
      ModerateTrustGivesMargin(trust, leak);
      MarginRulesOut(n, trust, power, leak);
    }
    CornerKnown(n);
    SizedMessageIff(n, trust, power, leak);
    if SizeMargin(n, trust) {
      SizeMarginBounds(n, trust);
    }
  }

  lemma SizeMarginBounds(n: nat, trust: real)
    requires trust >= 0.0 && SizeMargin(n, trust)
    ensures trust < 999999998.0
  {
    hide SouthGain;
    var gain := SouthGain(n);
    ProductPositive(gain - 1.0, 1.0 + trust);
    assert (gain - 1.0) * (1.0 + trust) == gain * (1.0 + trust) - (1.0 + trust);
  }
}

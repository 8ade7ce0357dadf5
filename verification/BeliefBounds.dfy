/** What every belief update keeps, how far evidence can move it, and the exclusions after a whole message. */
module BeliefBounds {
  import opened Board
  import opened Grids
  import opened Belief
  import opened BeliefGrids
  import opened Hints

  ghost predicate Distribution(g: Grid, n: nat) {
    Square(g, n) && NonNegative(g, n) && Total(g) == 1.0
  }

  // ----- normalising -----

  lemma UniformIsDistribution(n: nat)
    requires n >= 1
    ensures Distribution(Uniform(n), n)
  {
    hide Total;
    TotalConstant(Uniform(n), n, n, UniformMass(n));
    UniformTotal(n);
  }

  lemma UniformTotal(n: nat)
    requires n >= 1
    ensures n as real * (n as real * UniformMass(n)) == 1.0 && UniformMass(n) > 0.0
  {
    var x := n as real;
    assert x * x > 0.0;
    assert x * (x * (1.0 / (x * x))) == (x * x) * (1.0 / (x * x));
  }

  lemma NonNegativeQuotient(x: real, total: real)
    requires 0.0 <= x && total > 0.0
    ensures 0.0 <= x / total
  {
  }

  /** With enough mass, normalising divides every cell by the sum. */
  lemma NormalizeAt(g: Grid, n: nat)
    requires Square(g, n) && Total(g) >= EPSILON
    ensures forall r, c :: 0 <= r < n && 0 <= c < n ==> Normalize(g, n)[r][c] == g[r][c] / Total(g)
  {
    hide Total;
  }

  lemma NormalizedCell(h: Grid, n: nat, cell: Cell)
    requires Square(h, n) && InBounds(cell, n) && Total(h) >= EPSILON
    ensures At(Normalize(h, n), cell) == At(h, cell) / Total(h)
  {
    hide Total;
    NormalizeAt(h, n);
  }

  /** Normalising always gives a probability distribution. */
  lemma NormalizeIsDistribution(g: Grid, n: nat)
    requires n >= 1 && Square(g, n) && NonNegative(g, n)
    ensures Distribution(Normalize(g, n), n)
  {
    hide Total;
    if Total(g) < EPSILON {
      UniformIsDistribution(n);
    } else {
      NormalizeAt(g, n);
      var h := Normalize(g, n);
      hide Normalize;
      forall r, c | 0 <= r < n && 0 <= c < n
        ensures 0.0 <= h[r][c]
      {
        NonNegativeQuotient(g[r][c], Total(g));
      }
      TotalDivide(Total(g), g, h, n);
    }
  }

  // ----- prediction -----

  lemma ShareNonNegative(g: Grid, n: nat, s: Cell)
    requires Square(g, n) && NonNegative(g, n)
    ensures Share(g, n, s) >= 0.0
  {
    if InBounds(s, n) && Reach(s, n) != [] {
      NonNegativeQuotient(At(g, s), |Reach(s, n)| as real);
    }
  }

  lemma DiffuseIsDistribution(g: Grid, n: nat)
    requires n >= 1 && Square(g, n) && NonNegative(g, n)
    ensures Distribution(Diffuse(g, n), n)
  {
    hide Share, Normalize, Total;
    forall s
      ensures Share(g, n, s) >= 0.0
    {
      ShareNonNegative(g, n, s);
    }
    NormalizeIsDistribution(Spread(g, n), n);
  }

  // ----- scent -----

  lemma {:induction false} PowerRange(x: real, k: nat)
    requires 0.0 <= x <= 1.0
    ensures 0.0 <= Power(x, k) <= 1.0
  {
    if k > 0 {
      PowerRange(x, k - 1);
      ProductInUnit(x, Power(x, k - 1));
    }
  }

  lemma ProductInUnit(x: real, y: real)
    requires 0.0 <= x <= 1.0 && 0.0 <= y <= 1.0
    ensures 0.0 <= x * y <= 1.0
  {
    ProductNonNegative(x, y);
    ProductNonNegative(1.0 - x, y);
    assert (1.0 - x) * y == y - x * y;
  }

  lemma ProductNonNegative(x: real, y: real)
    requires 0.0 <= x && 0.0 <= y
    ensures 0.0 <= x * y
  {
  }

  lemma {:induction false} PowerOfOne(k: nat)
    ensures Power(1.0, k) == 1.0
  {
    if k > 0 {
      PowerOfOne(k - 1);
    }
  }

  /** Whole powers, such as the shipped cube, are among the admitted ones. */
  lemma WholePowersRaise(k: nat)
    ensures Raises((x: real) => Power(x, k))
  {
    PowerOfOne(k);
    forall x: real | 0.0 <= x <= 1.0
      ensures 0.0 <= Power(x, k) <= 1.0
    {
      PowerRange(x, k);
    }
  }

  lemma BoostRange(trust: real, power: Raising, reading: real)
    requires Raises(power) && trust >= 0.0 && 0.0 <= reading <= 1.0
    ensures 1.0 <= Boost(trust, power, reading) <= 1.0 + trust
  {
    var raised := power(reading);
    assert 0.0 <= raised <= 1.0;
    ProductUpTo(trust, raised);
  }

  lemma ProductUpTo(t: real, p: real)
    requires t >= 0.0 && 0.0 <= p <= 1.0
    ensures 0.0 <= t * p <= t
  {
    ProductNonNegative(t, p);
    ProductNonNegative(t, 1.0 - p);
    assert t * (1.0 - p) == t - t * p;
  }

  lemma CellBoostRange(readings: map<Cell, real>, peak: real, trust: real, power: Raising, cell: Cell)
    requires Raises(power) && trust >= 0.0 && IsPeak(readings, peak) && forall x :: x in readings ==> 0.0 <= readings[x]
    ensures 1.0 <= CellBoost(readings, peak, trust, power, cell) <= 1.0 + trust
  {
    if peak > 0.0 && cell in readings {
      RatioWithinOne(readings[cell], peak);
      BoostRange(trust, power, readings[cell] / peak);
    }
  }

  lemma ProductBetween(p: real, low: real, factor: real, high: real)
    requires 0.0 <= p && 0.0 <= low <= factor <= high
    ensures low * p <= p * factor <= high * p && 0.0 <= p * factor
  {
    assert p * factor - low * p == p * (factor - low);
    assert high * p - p * factor == p * (high - factor);
  }

  /** Reweighing each cell by a factor in [1, high] keeps the sum in the same range. */
  lemma ReweighedTotal(g: Grid, h: Grid, n: nat, high: real)
    requires Distribution(g, n) && Square(h, n) && high >= 1.0
    requires forall r, c :: 0 <= r < n && 0 <= c < n ==> g[r][c] <= h[r][c] <= high * g[r][c]
    ensures NonNegative(h, n) && 1.0 <= Total(h) <= high
  {
    hide Total;
    TotalMonotone(g, h, n, n);
    var top := Tabulate(n, (r: int, c: int) => high * At(g, (r, c)));
    TotalScale(high, g, top, n);
    TotalMonotone(h, top, n, n);
  }

  lemma QuotientBetween(p: real, q: real, total: real, high: real)
    requires 0.0 <= p && p <= q <= high * p && 1.0 <= total <= high
    ensures p / high <= q / total <= high * p
  {
    QuotientMonotone(p, q, high, total);
    assert q / total <= q by {
      QuotientMonotone(q, q, total, 1.0);
    }
  }

  lemma QuotientMonotone(p: real, q: real, a: real, b: real)
    requires 0.0 <= p <= q && 0.0 < b <= a
    ensures p / a <= q / b
  {
    var x, y := p / a, q / b;
    NonNegativeQuotient(q, b);
    assert x * a == p && y * b == q;
    assert y * (a - b) >= 0.0;
    SignOfFactor(y - x, a);
  }

  lemma SignOfFactor(d: real, a: real)
    requires a > 0.0 && d * a >= 0.0
    ensures d >= 0.0
  {
  }

  /** After reweighing by factors in [1, high] and normalising, no cell moves by more than that factor. */
  lemma ReweighedInfluence(g: Grid, h: Grid, n: nat, high: real)
    requires Distribution(g, n) && Square(h, n) && high >= 1.0
    requires forall r, c :: 0 <= r < n && 0 <= c < n ==> g[r][c] <= h[r][c] <= high * g[r][c]
    ensures Distribution(Normalize(h, n), n)
    ensures forall r, c :: 0 <= r < n && 0 <= c < n ==> g[r][c] / high <= Normalize(h, n)[r][c] <= high * g[r][c]
  {
    hide Total, Normalize;
    ReweighedTotal(g, h, n, high);
    NormalizeAt(h, n);
    EmptyGrid(g, n);
    NormalizeIsDistribution(h, n);
    forall r, c | 0 <= r < n && 0 <= c < n
      ensures g[r][c] / high <= Normalize(h, n)[r][c] <= high * g[r][c]
    {
      QuotientBetween(g[r][c], h[r][c], Total(h), high);
    }
  }

  lemma EmptyGrid(g: Grid, n: nat)
    requires Distribution(g, n)
    ensures n >= 1
  {
  }

  lemma SharpenAtCell(g: Grid, n: nat, readings: map<Cell, real>, peak: real, trust: real, power: Raising, r: int,
                      c: int)
    requires Square(g, n) && 0 <= r < n && 0 <= c < n
    ensures Sharpen(g, n, readings, peak, trust, power)[r][c] ==
            g[r][c] * CellBoost(readings, peak, trust, power, (r, c))
  {
    hide CellBoost;
  }

  lemma WeighAtCell(g: Grid, n: nat, evidence: map<Cell, real>, r: int, c: int)
    requires Square(g, n) && 0 <= r < n && 0 <= c < n
    ensures Weigh(g, n, evidence)[r][c] == g[r][c] * Likelihood(evidence, (r, c))
  {
    hide Likelihood;
  }

  /** Sharpening multiplies each cell by something in [1, 1 + trust]. */
  lemma SharpenedBounds(g: Grid, n: nat, entries: seq<(string, Reading)>, trust: real, power: Raising)
    requires Square(g, n) && NonNegative(g, n) && Raises(power) && trust >= 0.0
    ensures var readings := ParseReadings(entries, n);
            var h := Sharpen(g, n, readings, Peak(readings), trust, power);
            forall r, c :: 0 <= r < n && 0 <= c < n ==> g[r][c] <= h[r][c] <= (1.0 + trust) * g[r][c]
  {
    hide CellBoost, ParseReadings, Peak, Sharpen;
    var readings := ParseReadings(entries, n);
    ParsedInBounds(entries, n);
    var h := Sharpen(g, n, readings, Peak(readings), trust, power);
    forall r, c | 0 <= r < n && 0 <= c < n
      ensures g[r][c] <= h[r][c] <= (1.0 + trust) * g[r][c]
    {
      CellBoostRange(readings, Peak(readings), trust, power, (r, c));
      SharpenAtCell(g, n, readings, Peak(readings), trust, power, r, c);
      ProductBetween(g[r][c], 1.0, CellBoost(readings, Peak(readings), trust, power, (r, c)), 1.0 + trust);
    }
  }

  /** A hint multiplies each cell by something in [1, 2]. */
  lemma WeighedBounds(g: Grid, n: nat, zone: Option<Zone>)
    requires Square(g, n) && NonNegative(g, n)
    ensures var h := Weigh(g, n, Evidence(zone, n));
            forall r, c :: 0 <= r < n && 0 <= c < n ==> g[r][c] <= h[r][c] <= 2.0 * g[r][c]
  {
    hide Likelihood, Evidence, Weigh;
    var h := Weigh(g, n, Evidence(zone, n));
    forall r, c | 0 <= r < n && 0 <= c < n
      ensures g[r][c] <= h[r][c] <= 2.0 * g[r][c]
    {
      HintFactorRange(zone, n, (r, c));
      WeighAtCell(g, n, Evidence(zone, n), r, c);
      ProductBetween(g[r][c], 1.0, Likelihood(Evidence(zone, n), (r, c)), 2.0);
    }
  }

  /** Scent, before the leak, changes each cell by a factor between 1/(1+trust) and 1+trust. */
  lemma ScentInfluence(g: Grid, n: nat, entries: seq<(string, Reading)>, trust: real, power: Raising)
    requires Distribution(g, n) && Raises(power) && trust >= 0.0
    ensures var readings := ParseReadings(entries, n);
            var sharp := Normalize(Sharpen(g, n, readings, Peak(readings), trust, power), n);
            Distribution(sharp, n) &&
            forall r, c :: 0 <= r < n && 0 <= c < n ==>
            g[r][c] / (1.0 + trust) <= sharp[r][c] <= (1.0 + trust) * g[r][c]
  {
    hide Total, Normalize, Sharpen, ParseReadings, Peak;
    var readings := ParseReadings(entries, n);
    SharpenedBounds(g, n, entries, trust, power);
    ReweighedInfluence(g, Sharpen(g, n, readings, Peak(readings), trust, power), n, 1.0 + trust);
  }

  /** A verbal hint changes each cell by a factor between one half and two. */
  lemma HintInfluence(g: Grid, n: nat, zone: Option<Zone>)
    requires Distribution(g, n)
    ensures var after := ObserveLikelihoods(g, n, Evidence(zone, n));
            Distribution(after, n) &&
            forall r, c :: 0 <= r < n && 0 <= c < n ==> g[r][c] / 2.0 <= after[r][c] <= 2.0 * g[r][c]
  {
    hide Total, Normalize, Weigh, Evidence;
    WeighedBounds(g, n, zone);
    ReweighedInfluence(g, Weigh(g, n, Evidence(zone, n)), n, 2.0);
  }

  // ----- the relative reading -----

  function Scaled(c: real, x: real): real {
    c * x
  }

  lemma ScaledInUnit(c: real, x: real)
    requires 0.0 <= c <= 1.0 && 0.0 <= x <= 1.0
    ensures 0.0 <= Scaled(c, x) <= 1.0
  {
    ProductInUnit(c, x);
  }

  lemma ScaledMonotone(c: real, x: real, y: real)
    requires 0.0 <= c && x <= y
    ensures Scaled(c, x) <= Scaled(c, y)
  {
    ProductMonotone(c, x, y);
  }

  lemma ScaledRatio(c: real, x: real, y: real)
    requires 0.0 < c && 0.0 < y
    ensures Scaled(c, y) > 0.0 && Scaled(c, x) / Scaled(c, y) == x / y
  {
    CancelFactor(c, x, y);
  }

  lemma ScaledZero(c: real)
    ensures Scaled(c, 0.0) == 0.0
  {
  }

  /** The same wire keys with every usable intensity multiplied by c. */
  function ScaleEntries(entries: seq<(string, Reading)>, c: real): seq<(string, Reading)> {
    if entries == [] then []
    else
      var (key, value) := entries[|entries| - 1];
      ScaleEntries(entries[..|entries| - 1], c) +
        [(key, if value.Number? then Number(Scaled(c, value.intensity)) else value)]
  }

  ghost predicate ScaledReadings(a: map<Cell, real>, b: map<Cell, real>, c: real) {
    a.Keys == b.Keys && forall cell :: cell in a ==> b[cell] == Scaled(c, a[cell])
  }

  ghost predicate UnitIntensities(entries: seq<(string, Reading)>) {
    forall i :: 0 <= i < |entries| && entries[i].1.Number? ==> 0.0 <= entries[i].1.intensity <= 1.0
  }

  lemma {:induction false} ScaledParse(entries: seq<(string, Reading)>, n: nat, c: real)
    requires UnitIntensities(entries) && 0.0 <= c <= 1.0
    ensures ScaledReadings(ParseReadings(entries, n), ParseReadings(ScaleEntries(entries, c), n), c)
  {
    hide Scaled, Wire.ParseCell;
    if entries != [] {
      var front, last := entries[..|entries| - 1], entries[|entries| - 1];
      ScaledParse(front, n, c);
      var scaled := ScaleEntries(entries, c);
      assert scaled[..|scaled| - 1] == ScaleEntries(front, c);
      if last.1.Number? {
        ScaledInUnit(c, last.1.intensity);
      }
    }
  }

  lemma ScaledPeak(a: map<Cell, real>, b: map<Cell, real>, c: real)
    requires ScaledReadings(a, b, c) && 0.0 < c
    ensures Peak(b) == Scaled(c, Peak(a))
  {
    hide Scaled;
    var top := Scaled(c, Peak(a));
    forall cell | cell in b
      ensures b[cell] <= top
    {
      assert cell in a.Keys;
      ScaledMonotone(c, a[cell], Peak(a));
    }
    if a != map[] {
      var strongest :| strongest in a && a[strongest] == Peak(a);
      assert strongest in b.Keys && b[strongest] == top;
    } else {
      ScaledZero(c);
      assert b.Keys == {};
    }
    PeakUnique(b, Peak(b), top);
  }

  lemma ProductMonotone(c: real, x: real, y: real)
    requires 0.0 <= c && x <= y
    ensures c * x <= c * y
  {
    ProductNonNegative(c, y - x);
    assert c * (y - x) == c * y - c * x;
  }

  lemma CancelFactor(c: real, x: real, y: real)
    requires c > 0.0 && y > 0.0
    ensures c * y > 0.0 && (c * x) / (c * y) == x / y
  {
    var q := x / y;
    assert q * y == x;
    assert q * (c * y) == c * x;
  }

  lemma ScaledCellBoost(a: map<Cell, real>, b: map<Cell, real>, c: real, trust: real, power: Raising, cell: Cell)
    requires ScaledReadings(a, b, c) && 0.0 < c
    ensures CellBoost(a, Peak(a), trust, power, cell) == CellBoost(b, Peak(b), trust, power, cell)
  {
    hide Boost, Scaled;
    ScaledPeak(a, b, c);
    assert cell in a.Keys <==> cell in b.Keys;
    ScaledZero(c);
    if Peak(a) > 0.0 {
      ScaledRatio(c, if cell in a then a[cell] else 0.0, Peak(a));
    } else {
      ScaledMonotone(c, Peak(a), 0.0);
    }
  }

  lemma ProductPositive(x: real, y: real)
    requires 0.0 < x && 0.0 < y
    ensures 0.0 < x * y
  {
  }

  /** A scent packet that has faded uniformly carries the same evidence. */
  lemma FadedPacketSameEvidence(g: Grid, n: nat, entries: seq<(string, Reading)>, c: real, trust: real, power: Raising,
                                leak: real)
    requires Square(g, n) && UnitIntensities(entries) && 0.0 < c <= 1.0
    ensures ObserveSmell(g, n, ScaleEntries(entries, c), trust, power, leak) ==
            ObserveSmell(g, n, entries, trust, power, leak)
  {
    hide CellBoost, Normalize, Leak, ParseReadings, ScaledReadings;
    ScaledParse(entries, n, c);
    var a, b := ParseReadings(entries, n), ParseReadings(ScaleEntries(entries, c), n);
    forall cell: Cell
      ensures CellBoost(a, Peak(a), trust, power, cell) == CellBoost(b, Peak(b), trust, power, cell)
    {
      ScaledCellBoost(a, b, c, trust, power, cell);
    }
    SameCellsEqual(Sharpen(g, n, a, Peak(a), trust, power), Sharpen(g, n, b, Peak(b), trust, power), n);
  }

  // ----- the leak's floor and the exclusions -----

  /** Every cell except the two named ones holds at least u. */
  ghost predicate Floor(g: Grid, n: nat, u: real, a: Cell, b: Cell)
    requires Square(g, n)
  {
    forall r, c :: 0 <= r < n && 0 <= c < n && (r, c) != a && (r, c) != b ==> u <= g[r][c]
  }

  ghost predicate FloorEverywhere(g: Grid, n: nat, u: real)
    requires Square(g, n)
  {
    forall r, c :: 0 <= r < n && 0 <= c < n ==> u <= g[r][c]
  }

  lemma MixRange(leak: real, x: real, u: real)
    requires 0.0 < leak <= 1.0 && 0.0 <= x && 0.0 <= u
    ensures leak * u <= (1.0 - leak) * x + leak * u && 0.0 <= leak * u
  {
    ProductNonNegative(1.0 - leak, x);
    ProductNonNegative(leak, u);
  }

  lemma LeakParts(g: Grid, n: nat, leak: real)
    requires Distribution(g, n) && leak > 0.0
    ensures Total(Leak(g, n, leak)) == (1.0 - leak) * 1.0 + leak * 1.0
  {
    hide Total, UniformMass;
    EmptyGrid(g, n);
    var kept := Tabulate(n, (r: int, c: int) => (1.0 - leak) * At(g, (r, c)));
    var spread := Tabulate(n, (r: int, c: int) => leak * UniformMass(n));
    var after := Leak(g, n, leak);
    TotalScale(1.0 - leak, g, kept, n);
    UniformIsDistribution(n);
    TotalScale(leak, Uniform(n), spread, n);
    TotalAdd(kept, spread, after, n, n);
  }

  /** The leak leaves a distribution in which no cell is below the leaked uniform share. */
  lemma LeakFloor(g: Grid, n: nat, leak: real)
    requires Distribution(g, n) && 0.0 < leak <= 1.0
    ensures Distribution(Leak(g, n, leak), n)
    ensures FloorEverywhere(Leak(g, n, leak), n, leak * UniformMass(n))
  {
    hide Total, UniformMass;
    LeakParts(g, n, leak);
    EmptyGrid(g, n);
    UniformTotal(n);
    var after := Leak(g, n, leak);
    forall r, c | 0 <= r < n && 0 <= c < n
      ensures leak * UniformMass(n) <= after[r][c] && 0.0 <= after[r][c]
    {
      MixRange(leak, g[r][c], UniformMass(n));
    }
  }

  /** The mass outside two cells of a grid whose other cells all hold at least u. */
  lemma MassOutside(h: Grid, n: nat, u: real, a: Cell, b: Cell)
    requires Square(h, n) && NonNegative(h, n) && u >= 0.0
    requires InBounds(a, n) && InBounds(b, n) && Floor(h, n, u, a, b)
    ensures Total(h) >= n as real * (n as real * u) - 2.0 * u
  {
    hide Total;
    var even := Tabulate(n, (r: int, c: int) => u);
    TotalConstant(even, n, n, u);
    var one := Put(even, a.0, a.1, 0.0);
    TotalPut(even, a.0, a.1, 0.0);
    var two := Put(one, b.0, b.1, 0.0);
    TotalPut(one, b.0, b.1, 0.0);
    TotalMonotone(two, h, n, n);
  }

  lemma EnoughLeft(n: nat, u: real, half: real)
    requires n >= 2 && u >= 0.0 && n as real * (n as real * u) == half
    ensures half - 2.0 * u >= half / 2.0
  {
    var x := n as real;
    ProductMonotone(u, 2.0, x);
    ProductMonotone(x * u, 2.0, x);
    assert x * (x * u) >= 4.0 * u;
  }

  /** Excluding a cell zeroes it, keeps a distribution and never lowers the other cells. */
  lemma ExcludeExact(g: Grid, n: nat, cell: Cell)
    requires Distribution(g, n) && InBounds(cell, n)
    requires Total(Put(g, cell.0, cell.1, 0.0)) >= EPSILON
    ensures var h := Exclude(g, n, cell);
            Distribution(h, n) && At(h, cell) == 0.0 &&
            forall r, c :: 0 <= r < n && 0 <= c < n && (r, c) != cell ==>
            g[r][c] <= h[r][c] && (g[r][c] == 0.0 ==> h[r][c] == 0.0)
  {
    hide Total, Normalize;
    EmptyGrid(g, n);
    var zeroed := Put(g, cell.0, cell.1, 0.0);
    TotalPut(g, cell.0, cell.1, 0.0);
    NormalizeIsDistribution(zeroed, n);
    NormalizedCell(zeroed, n, cell);
    var h := Exclude(g, n, cell);
    forall r, c | 0 <= r < n && 0 <= c < n && (r, c) != cell
      ensures g[r][c] <= h[r][c] && (g[r][c] == 0.0 ==> h[r][c] == 0.0)
    {
      NormalizedCell(zeroed, n, (r, c));
      QuotientRaises(g[r][c], Total(zeroed));
    }
  }

  lemma QuotientRaises(p: real, total: real)
    requires 0.0 <= p && 0.0 < total <= 1.0
    ensures p <= p / total && (p == 0.0 ==> p / total == 0.0)
  {
    QuotientMonotone(p, p, 1.0, total);
  }

  lemma ExcludeFallsBack(g: Grid, n: nat, cell: Cell)
    requires Distribution(g, n) && InBounds(cell, n)
    requires Total(Put(g, cell.0, cell.1, 0.0)) < EPSILON
    ensures At(Exclude(g, n, cell), cell) > 0.0
  {
    hide Total;
    EmptyGrid(g, n);
    UniformTotal(n);
  }

  /** Excluding a cell really rules it out exactly when it did not hold all but EPSILON of the belief. */
  lemma ExcludeWorksIff(g: Grid, n: nat, cell: Cell)
    requires Distribution(g, n) && InBounds(cell, n)
    ensures At(Exclude(g, n, cell), cell) == 0.0 <==> At(g, cell) <= 1.0 - EPSILON
  {
    hide Total, Exclude;
    TotalPut(g, cell.0, cell.1, 0.0);
    if Total(Put(g, cell.0, cell.1, 0.0)) >= EPSILON {
      ExcludeExact(g, n, cell);
    } else {
      ExcludeFallsBack(g, n, cell);
    }
  }

  // ----- one whole message -----

  /** The belief after prediction, scent and hint. */
  ghost function Fuse(g: Grid, n: nat, entries: seq<(string, Reading)>, zone: Option<Zone>,
                      trust: real, power: Raising, leak: real): (h: Grid)
    ensures Square(h, n)
  {
    ObserveLikelihoods(ObserveSmell(Diffuse(g, n), n, entries, trust, power, leak), n, Evidence(zone, n))
  }

  /** The belief after a message that leaves the game undecided. */
  ghost function Believe(g: Grid, n: nat, entries: seq<(string, Reading)>, zone: Option<Zone>,
                         barrier: Option<Cell>, own: Cell, trust: real, power: Raising, leak: real): (h: Grid)
    ensures Square(h, n)
  {
    var fused := Fuse(g, n, entries, zone, trust, power, leak);
    var known := if barrier.Some? then Exclude(fused, n, barrier.value) else fused;
    Exclude(known, n, own)
  }

  lemma HalfFloor(n: nat, leak: real)
    requires n >= 1 && leak > 0.0
    ensures var u := leak * UniformMass(n) / 2.0;
            u >= 0.0 && n as real * (n as real * u) == leak / 2.0
  {
    UniformTotal(n);
    var x, m := n as real, UniformMass(n);
    assert x * (x * (leak * m / 2.0)) == (x * (x * m)) * leak / 2.0;
  }

  /** Prediction, scent and hint leave at least half the leaked uniform share in every cell. */
  lemma FuseFloor(g: Grid, n: nat, entries: seq<(string, Reading)>, zone: Option<Zone>,
                  trust: real, power: Raising, leak: real)
    requires Distribution(g, n) && Raises(power) && trust >= 0.0 && 0.0 < leak <= 1.0
    ensures var h := Fuse(g, n, entries, zone, trust, power, leak);
            Distribution(h, n) && FloorEverywhere(h, n, leak * UniformMass(n) / 2.0)
  {
    hide Total, Normalize, Diffuse, Leak, ObserveLikelihoods, Sharpen, Evidence, ParseReadings, UniformMass;
    EmptyGrid(g, n);
    DiffuseIsDistribution(g, n);
    ScentInfluence(Diffuse(g, n), n, entries, trust, power);
    var readings := ParseReadings(entries, n);
    var sharp := Normalize(Sharpen(Diffuse(g, n), n, readings, Peak(readings), trust, power), n);
    LeakFloor(sharp, n, leak);
    HintInfluence(Leak(sharp, n, leak), n, zone);
  }

  ghost predicate Rules(g: Grid, n: nat, own: Cell, barrier: Option<Cell>) {
    Distribution(g, n) && At(g, own) == 0.0 && (barrier.Some? ==> At(g, barrier.value) == 0.0)
  }

  /**
   * After a message that leaves the game undecided, the belief is a distribution that is exactly zero on
   * the Thief's own cell and on a barrier placed in that message: no exclusion ever falls back to uniform.
   */
  lemma BelieveRules(g: Grid, n: nat, entries: seq<(string, Reading)>, zone: Option<Zone>,
                     barrier: Option<Cell>, own: Cell, trust: real, power: Raising, leak: real)
    requires Distribution(g, n) && n >= 2 && Raises(power) && trust >= 0.0 && 4.0 * EPSILON <= leak <= 1.0
    requires InBounds(own, n) && (barrier.Some? ==> InBounds(barrier.value, n) && barrier.value != own)
    ensures Rules(Believe(g, n, entries, zone, barrier, own, trust, power, leak), n, own, barrier)
  {
    hide Total, Exclude, Fuse, UniformMass;
    var fused := Fuse(g, n, entries, zone, trust, power, leak);
    FuseFloor(g, n, entries, zone, trust, power, leak);
    HalfFloor(n, leak);
    var u := leak * UniformMass(n) / 2.0;
    EnoughLeft(n, u, leak / 2.0);
    var wall := if barrier.Some? then barrier.value else own;
    var known := if barrier.Some? then Exclude(fused, n, wall) else fused;
    if barrier.Some? {
      MassOutside(Put(fused, wall.0, wall.1, 0.0), n, u, wall, wall);
      ExcludeExact(fused, n, wall);
    }
    MassOutside(Put(known, own.0, own.1, 0.0), n, u, wall, own);
    ExcludeExact(known, n, own);
  }

  /** The most likely cell carries the highest, and therefore a positive, probability. */
  lemma MostLikelyPositive(g: Grid, n: nat)
    requires Distribution(g, n)
    ensures InBounds(MostLikely(g, n), n) && At(g, MostLikely(g, n)) > 0.0
    ensures forall cell :: InBounds(cell, n) ==> At(g, cell) <= At(g, MostLikely(g, n))
    ensures forall cell :: InBounds(cell, n) && RowMajorBefore(cell, MostLikely(g, n)) ==>
            At(g, cell) < At(g, MostLikely(g, n))
  {
    hide Total;
    EmptyGrid(g, n);
    BestBeforeExact(g, n, n, 0);
    var best := MostLikely(g, n);
    if At(g, best) <= 0.0 {
      var zero := Tabulate(n, (r: int, c: int) => 0.0);
      TotalConstant(zero, n, n, 0.0);
      forall r, c | 0 <= r < n && 0 <= c < n
        ensures g[r][c] <= zero[r][c]
      {
        assert At(g, (r, c)) <= At(g, best);
      }
      TotalMonotone(g, zero, n, n);
    }
  }

  /** So the believed Police cell is neither the Thief's own cell nor the fresh barrier. */
  lemma BelievedThreatElsewhere(g: Grid, n: nat, own: Cell, barrier: Option<Cell>)
    requires Rules(g, n, own, barrier)
    ensures MostLikely(g, n) != own && (barrier.Some? ==> MostLikely(g, n) != barrier.value)
  {
    MostLikelyPositive(g, n);
  }
}

/** A condition on trust and leak under which every undecided message rules out its cells. */
module BeliefTuning {
  import opened Board
  import opened Grids
  import opened Belief
  import opened BeliefBounds
  import opened BeliefExclusions
  import opened Hints

  /** The leak that is applied; a negative one is ignored. */
  function Applied(leak: real): real {
    if leak < 0.0 then 0.0 else leak
  }

  /**
   * The condition on trust and leak: in the worst message the own cell outweighs the cells that remain by less than
   * the normalisation guard.
   */
  predicate Margin(trust: real, leak: real) {
    var l := Applied(leak);
    2.0 * EPSILON * ((1.0 - l) * (1.0 + trust) + l * (3.0 + trust) / 4.0)
    <= (1.0 - EPSILON) * ((1.0 - l) + l * (3.0 + trust) / 2.0)
  }

  /** The margin in terms of the one product that it holds. */
  predicate MarginOf(trust: real, l: real, both: real) {
    2.0 * EPSILON * (1.0 + trust - l - both + (3.0 * l + both) / 4.0) <=
      (1.0 - EPSILON) * (1.0 - l + (3.0 * l + both) / 2.0)
  }

  lemma MarginParts(trust: real, leak: real)
    ensures Margin(trust, leak) <==> MarginOf(trust, Applied(leak), Applied(leak) * trust)
  {
    var l := Applied(leak);
    hide Margin;
    assert l * (3.0 + trust) == 3.0 * l + l * trust;
    assert (1.0 - l) * (1.0 + trust) == 1.0 + trust - l - l * trust;
    MarginUnfolds(trust, leak, (1.0 - l) * (1.0 + trust), l * (3.0 + trust));
  }

  lemma MarginUnfolds(trust: real, leak: real, kept: real, leaked: real)
    requires kept == (1.0 - Applied(leak)) * (1.0 + trust) && leaked == Applied(leak) * (3.0 + trust)
    ensures Margin(trust, leak) <==>
              2.0 * EPSILON * (kept + leaked / 4.0) <= (1.0 - EPSILON) * ((1.0 - Applied(leak)) + leaked / 2.0)
  {
  }

  /** With some leak every trust has the margin. */
  lemma LeakGivesMargin(trust: real, leak: real)
    requires trust >= 0.0 && 4.0 * EPSILON <= leak <= 1.0
    ensures Margin(trust, leak)
  {
    hide Margin;
    MarginParts(trust, leak);
    ProductNonNegative(trust, leak - 4.0 * EPSILON);
    assert trust * (leak - 4.0 * EPSILON) == leak * trust - 4.0 * EPSILON * trust;
  }

  /** With a trust of at most 499999998.5 every leak has the margin, none included. */
  lemma ModerateTrustGivesMargin(trust: real, leak: real)
    requires 0.0 <= trust <= 499999998.5 && leak <= 1.0
    ensures Margin(trust, leak)
  {
    hide Margin;
    MarginParts(trust, leak);
    var l := Applied(leak);
    ProductNonNegative(l, trust);
    ProductNonNegative(1.0 - l, 499999998.5 - trust);
    assert (1.0 - l) * (499999998.5 - trust) == 499999998.5 - trust - 499999998.5 * l + l * trust;
  }

  // ----- one own cell and one wall, from prediction to the hint -----

  /** The own cell's share o does not outweigh the share r of the remaining cells, once leaked. */
  predicate Leaves(l: real, o: real, r: real) {
    2.0 * EPSILON * ((1.0 - l) * o + l / 4.0) <= (1.0 - EPSILON) * ((1.0 - l) * r + l / 2.0)
  }

  /** How much the remaining cells are ahead when the own cell holds x and the rest as little as possible. */
  function Slack(l: real, x: real): real {
    (1.0 - EPSILON) * ((1.0 - l) / 3.0 + l * (x + 2.0 / 3.0) / 2.0) -
      2.0 * EPSILON * ((1.0 - l) * x + l * (x + 2.0 / 3.0) / 4.0)
  }

  function SlackRate(l: real): real {
    (1.0 - EPSILON) * l / 2.0 - 2.0 * EPSILON * (1.0 - l) - EPSILON * l / 2.0
  }

  lemma SlackIsLinear(l: real, x: real)
    ensures Slack(l, x) == Slack(l, 0.0) + SlackRate(l) * x
  {
    assert l * (x + 2.0 / 3.0) == l * x + l * (2.0 / 3.0);
    assert (1.0 - l) * x == x - l * x;
  }

  lemma SlackAtZero(l: real)
    requires 0.0 <= l <= 1.0
    ensures Slack(l, 0.0) >= 0.0
  {
  }

  lemma SlackAtTop(trust: real, leak: real)
    requires trust >= 0.0 && leak <= 1.0 && Margin(trust, leak)
    ensures Slack(Applied(leak), (1.0 + trust) / 3.0) >= 0.0
  {
    var l := Applied(leak);
    assert (1.0 + trust) / 3.0 + 2.0 / 3.0 == (3.0 + trust) / 3.0;
    assert l * ((3.0 + trust) / 3.0) == l * (3.0 + trust) / 3.0;
    assert (1.0 - l) * ((1.0 + trust) / 3.0) == (1.0 - l) * (1.0 + trust) / 3.0;
  }

  lemma SlackBetween(l: real, x: real, top: real)
    requires 0.0 <= l <= 1.0 && 0.0 <= x <= top && Slack(l, top) >= 0.0
    ensures Slack(l, x) >= 0.0
  {
    hide Slack, SlackRate;
    SlackIsLinear(l, x);
    SlackIsLinear(l, top);
    SlackAtZero(l);
    if SlackRate(l) >= 0.0 {
      ProductNonNegative(SlackRate(l), x);
    } else {
      ProductNonNegative(-SlackRate(l), top - x);
      assert -SlackRate(l) * (top - x) == SlackRate(l) * x - SlackRate(l) * top;
    }
  }

  /** The same comparison of masses x, z out of total, before normalising. */
  predicate LeavesMass(l: real, x: real, z: real, total: real) {
    2.0 * EPSILON * ((1.0 - l) * x + l * total / 4.0) <= (1.0 - EPSILON) * ((1.0 - l) * z + l * total / 2.0)
  }

  lemma SlackLeavesMass(l: real, x: real, z: real, total: real)
    requires 0.0 <= l <= 1.0 && Slack(l, x) >= 0.0 && z >= 1.0 / 3.0 && total >= x + 2.0 / 3.0
    ensures LeavesMass(l, x, z, total)
  {
    hide Slack, LeavesMass;
    ProductMonotone(l, x + 2.0 / 3.0, total);
    AtLeastThird(1.0 - l, z);
    var own, few, least, rest, all := (1.0 - l) * x, l * (x + 2.0 / 3.0), (1.0 - l) / 3.0, (1.0 - l) * z, l * total;
    SlackIs(l, x, own, few, least);
    LeavesMassIs(l, x, z, total, own, rest, all);
    SlackGrows(l, own, least, rest, few, all);
  }

  lemma AtLeastThird(k: real, z: real)
    requires k >= 0.0 && z >= 1.0 / 3.0
    ensures k / 3.0 <= k * z
  {
    ProductMonotone(k, 1.0 / 3.0, z);
    assert k * (1.0 / 3.0) == k / 3.0;
  }

  lemma SlackIs(l: real, x: real, own: real, few: real, least: real)
    requires own == (1.0 - l) * x && few == l * (x + 2.0 / 3.0) && least == (1.0 - l) / 3.0
    ensures Slack(l, x) == (1.0 - EPSILON) * (least + few / 2.0) - 2.0 * EPSILON * (own + few / 4.0)
  {
  }

  lemma LeavesMassIs(l: real, x: real, z: real, total: real, own: real, rest: real, all: real)
    requires own == (1.0 - l) * x && rest == (1.0 - l) * z && all == l * total
    ensures LeavesMass(l, x, z, total) <==> 2.0 * EPSILON * (own + all / 4.0) <= (1.0 - EPSILON) * (rest + all / 2.0)
  {
  }

  /** More mass in the rest, and more in all, only add to the slack. */
  lemma SlackGrows(l: real, own: real, least: real, rest: real, few: real, all: real)
    requires least == (1.0 - l) / 3.0 && least <= rest && few <= all
    requires (1.0 - EPSILON) * (least + few / 2.0) - 2.0 * EPSILON * (own + few / 4.0) >= 0.0
    ensures 2.0 * EPSILON * (own + all / 4.0) <= (1.0 - EPSILON) * (rest + all / 2.0)
  {
  }

  lemma Rescale(k: real, o: real, x: real, total: real)
    requires o * total == x
    ensures (k * o) * total == k * x
  {
  }

  /** Comparing the masses is comparing the shares. */
  lemma SharesAreMasses(l: real, x: real, z: real, total: real)
    requires total > 0.0
    ensures Leaves(l, x / total, z / total) <==> LeavesMass(l, x, z, total)
  {
    var o, r := x / total, z / total;
    Rescale(1.0 - l, o, x, total);
    Rescale(1.0 - l, r, z, total);
    var p, q := (1.0 - l) * o, (1.0 - l) * r;
    var gap := (1.0 - EPSILON) * (q + l / 2.0) - 2.0 * EPSILON * (p + l / 4.0);
    GapScaled(p, q, l, total);
    if gap * total >= 0.0 {
      SignOfFactor(gap, total);
    } else if gap >= 0.0 {
      ProductNonNegative(gap, total);
    }
  }

  lemma GapScaled(p: real, q: real, l: real, total: real)
    ensures ((1.0 - EPSILON) * (q + l / 2.0) - 2.0 * EPSILON * (p + l / 4.0)) * total
         == (1.0 - EPSILON) * (q * total + l * total / 2.0) - 2.0 * EPSILON * (p * total + l * total / 4.0)
  {
  }

  lemma NormalizedParts(h: Grid, n: nat, a: Cell, b: Cell)
    requires Square(h, n) && InBounds(a, n) && InBounds(b, n) && Total(h) >= EPSILON
    ensures At(Normalize(h, n), a) == At(h, a) / Total(h)
    ensures Others(Normalize(h, n), n, a, b) == Others(h, n, a, b) / Total(h)
  {
    hide Total, Normalize, At;
    NormalizeAt(h, n);
    TotalDivide(Total(h), h, Normalize(h, n), n);
    NormalizedCell(h, n, a);
    NormalizedCell(h, n, b);
    QuotientsLess(Total(h), At(h, a), At(h, b));
  }

  lemma QuotientsLess(t: real, p: real, q: real)
    requires t > 0.0
    ensures (t - p) / t == t / t - p / t && (t - p - q) / t == t / t - p / t - q / t
  {
    var x, y := p / t, q / t;
    assert x * t == p && y * t == q && t / t == 1.0;
    QuotientIs(t - p, t, 1.0 - x);
    assert (1.0 - x - y) * t == t - x * t - y * t;
    QuotientIs(t - p - q, t, 1.0 - x - y);
  }

  lemma QuotientIs(a: real, b: real, c: real)
    requires b > 0.0 && c * b == a
    ensures a / b == c
  {
  }

  /** The masses of the own cell, of the rest, and of all cells, after scent and before normalising. */
  lemma ScentMasses(d: Grid, h: Grid, n: nat, trust: real, own: Cell, wall: Cell)
    requires Distribution(d, n) && Square(h, n) && trust >= 0.0
    requires InBounds(own, n) && InBounds(wall, n) && own != wall && At(d, own) <= 1.0 / 3.0 && At(d, wall) <= 1.0 / 3.0
    requires forall r, c :: 0 <= r < n && 0 <= c < n ==> d[r][c] <= h[r][c] <= (1.0 + trust) * d[r][c]
    ensures 0.0 <= At(h, own) <= (1.0 + trust) / 3.0
    ensures Others(h, n, own, wall) >= 1.0 / 3.0 && Total(h) >= At(h, own) + 2.0 / 3.0
  {
    hide Total;
    TrustBound(At(d, own), trust);
    Unscaled(d, h, n, own, wall);
    Unscaled(d, h, n, own, own);
  }

  lemma Unscaled(d: Grid, h: Grid, n: nat, a: Cell, b: Cell)
    requires Square(d, n) && Square(h, n) && InBounds(a, n) && InBounds(b, n)
    requires forall r, c :: 0 <= r < n && 0 <= c < n ==> d[r][c] <= h[r][c]
    ensures Others(d, n, a, b) <= Others(h, n, a, b)
  {
    hide Others;
    OthersAtLeast(d, h, n, a, b, 1.0);
  }

  lemma ScentLeavesRatio(g: Grid, n: nat, entries: seq<(string, Reading)>, trust: real, power: Raising, leak: real,
                         own: Cell, wall: Cell)
    requires n >= 2 && Distribution(g, n) && Raises(power) && trust >= 0.0 && leak <= 1.0 && Margin(trust, leak)
    requires InBounds(own, n) && InBounds(wall, n) && own != wall
    ensures var readings := ParseReadings(entries, n);
            var sharp := Normalize(Sharpen(Diffuse(g, n), n, readings, Peak(readings), trust, power), n);
            Distribution(sharp, n) && Leaves(Applied(leak), At(sharp, own), Others(sharp, n, own, wall))
  {
    hide Total, Normalize, Diffuse, ParseReadings, Sharpen, Slack, Leaves, LeavesMass, Margin, Peak, Others, At;
    var d, readings := Diffuse(g, n), ParseReadings(entries, n);
    DiffuseIsDistribution(g, n);
    DiffusedAtMostThird(g, n, own);
    DiffusedAtMostThird(g, n, wall);
    ScentInfluence(d, n, entries, trust, power);
    SharpenedBounds(d, n, entries, trust, power);
    var h := Sharpen(d, n, readings, Peak(readings), trust, power);
    ScentMasses(d, h, n, trust, own, wall);
    NormalizedParts(h, n, own, wall);
    hide Distribution;
    SlackAtTop(trust, leak);
    SlackBetween(Applied(leak), At(h, own), (1.0 + trust) / 3.0);
    SlackLeavesMass(Applied(leak), At(h, own), Others(h, n, own, wall), Total(h));
    SharesAreMasses(Applied(leak), At(h, own), Others(h, n, own, wall), Total(h));
  }

  lemma TrustBound(p: real, trust: real)
    requires p <= 1.0 / 3.0 && trust >= 0.0
    ensures (1.0 + trust) * p <= (1.0 + trust) / 3.0
  {
    ProductNonNegative(1.0 + trust, 1.0 / 3.0 - p);
  }

  /** The own cell's share o against the share r of the remaining cells, before the hint. */
  predicate Ahead(o: real, r: real) {
    2.0 * EPSILON * o <= (1.0 - EPSILON) * r
  }

  lemma LeakKeepsAhead(g: Grid, n: nat, leak: real, own: Cell, wall: Cell)
    requires n >= 2 && Distribution(g, n) && leak <= 1.0 && InBounds(own, n) && InBounds(wall, n) && own != wall
    requires Leaves(Applied(leak), At(g, own), Others(g, n, own, wall))
    ensures Distribution(Leak(g, n, leak), n) &&
            Ahead(At(Leak(g, n, leak), own), Others(Leak(g, n, leak), n, own, wall))
  {
    if leak > 0.0 {
      SomeLeakKeepsAhead(g, n, leak, own, wall);
    } else {
      NoLeak(At(g, own), Others(g, n, own, wall));
    }
  }

  lemma SomeLeakKeepsAhead(g: Grid, n: nat, leak: real, own: Cell, wall: Cell)
    requires n >= 2 && Distribution(g, n) && 0.0 < leak <= 1.0 && InBounds(own, n) && InBounds(wall, n) && own != wall
    requires Leaves(leak, At(g, own), Others(g, n, own, wall))
    ensures Distribution(Leak(g, n, leak), n) &&
            Ahead(At(Leak(g, n, leak), own), Others(Leak(g, n, leak), n, own, wall))
  {
    hide Total, UniformMass, Others, At, Leaves, Ahead, Leak;
    LeakFloor(g, n, leak);
    UniformSmall(n);
    LeakedAt(g, n, leak, own);
    LeakedOthers(g, n, leak, own, wall);
    hide Distribution;
    var h := Leak(g, n, leak);
    LeakedAhead(leak, UniformMass(n), At(g, own), Others(g, n, own, wall), At(h, own), Others(h, n, own, wall));
  }

  lemma NoLeak(o: real, r: real)
    requires Leaves(0.0, o, r)
    ensures Ahead(o, r)
  {
    assert (1.0 - 0.0) * o == o && (1.0 - 0.0) * r == r;
  }

  lemma LeakedAhead(l: real, u: real, o: real, r: real, p: real, q: real)
    requires 0.0 < l <= 1.0 && 0.0 < u <= 0.25 && Leaves(l, o, r)
    requires p == (1.0 - l) * o + l * u && q == (1.0 - l) * r + l * (1.0 - 2.0 * u)
    ensures Ahead(p, q)
  {
    ProductNonNegative(l, 0.25 - u);
    assert l * (0.25 - u) == l / 4.0 - l * u;
    assert l * (1.0 - 2.0 * u) == l - 2.0 * (l * u);
  }

  lemma HintKeepsAhead(g: Grid, n: nat, zone: Option<Zone>, own: Cell, wall: Cell)
    requires Distribution(g, n) && InBounds(own, n) && InBounds(wall, n) && own != wall
    requires Ahead(At(g, own), Others(g, n, own, wall))
    ensures var after := ObserveLikelihoods(g, n, Evidence(zone, n));
            Distribution(after, n) &&
            EPSILON * (At(after, own) + Others(after, n, own, wall)) <= Others(after, n, own, wall)
  {
    hide Total, Normalize, Weigh, Evidence, Others, Ahead, At;
    var h := Weigh(g, n, Evidence(zone, n));
    WeighedBounds(g, n, zone);
    HintInfluence(g, n, zone);
    ReweighedTotal(g, h, n, 2.0);
    Unscaled(g, h, n, own, wall);
    NormalizedParts(h, n, own, wall);
    TwiceAt(g, h, n, own);
    hide Distribution;
    AheadNormalized(At(g, own), Others(g, n, own, wall), At(h, own), Others(h, n, own, wall), Total(h));
  }

  lemma TwiceAt(g: Grid, h: Grid, n: nat, cell: Cell)
    requires Square(g, n) && Square(h, n) && InBounds(cell, n)
    requires forall r, c :: 0 <= r < n && 0 <= c < n ==> g[r][c] <= h[r][c] <= 2.0 * g[r][c]
    ensures At(h, cell) <= 2.0 * At(g, cell)
  {
  }

  lemma AheadNormalized(o: real, r: real, p: real, q: real, total: real)
    requires Ahead(o, r) && p <= 2.0 * o && r <= q && total >= 1.0
    ensures EPSILON * (p / total + q / total) <= q / total
  {
    var x, y := p / total, q / total;
    assert x * total == p && y * total == q;
    assert (y - EPSILON * (x + y)) * total == q - EPSILON * (p + q);
    SignOfFactor(y - EPSILON * (x + y), total);
  }

  /** After prediction, scent, leak and hint the remaining cells still outweigh any own cell by the guard. */
  lemma FuseKeepsAhead(g: Grid, n: nat, entries: seq<(string, Reading)>, zone: Option<Zone>,
                       trust: real, power: Raising, leak: real, own: Cell, wall: Cell)
    requires n >= 2 && Distribution(g, n) && Raises(power) && trust >= 0.0 && leak <= 1.0 && Margin(trust, leak)
    requires InBounds(own, n) && InBounds(wall, n) && own != wall
    ensures var h := Fuse(g, n, entries, zone, trust, power, leak);
            Distribution(h, n) && EPSILON * (At(h, own) + Others(h, n, own, wall)) <= Others(h, n, own, wall)
  {
    hide Total, Normalize, Diffuse, Leak, ObserveLikelihoods, Sharpen, Evidence, ParseReadings, Others, Leaves, Ahead,
         Margin, Peak;
    ScentLeavesRatio(g, n, entries, trust, power, leak, own, wall);
    var readings := ParseReadings(entries, n);
    var sharp := Normalize(Sharpen(Diffuse(g, n), n, readings, Peak(readings), trust, power), n);
    LeakKeepsAhead(sharp, n, leak, own, wall);
    HintKeepsAhead(Leak(sharp, n, leak), n, zone, own, wall);
  }

  lemma AheadSurvives(fused: Grid, n: nat, own: Cell, wall: Cell)
    requires Distribution(fused, n) && own != wall
    requires EPSILON * (At(fused, own) + Others(fused, n, own, wall)) <= Others(fused, n, own, wall)
    requires EPSILON * (At(fused, wall) + Others(fused, n, wall, own)) <= Others(fused, n, wall, own)
    requires At(fused, own) >= 0.0 && At(fused, wall) >= 0.0
    ensures Survives(fused, Some(wall), own) && Survives(fused, None, own)
  {
    hide Total;
  }

  /** Some other board cell. */
  function Elsewhere(cell: Cell): Cell {
    (if cell.0 == 0 then 1 else 0, cell.1)
  }

  /** Trust and leak for which no exclusion ever falls back, on any board of size at least two. */
  predicate Settled(n: nat, trust: real, leak: real) {
    n >= 2 && trust >= 0.0 && leak <= 1.0 && Margin(trust, leak)
  }

  /**
   * With settled tuning, an undecided message always leaves a belief that rules out the own cell and the new barrier.
   */
  lemma BelieveHolds(g: Grid, n: nat, entries: seq<(string, Reading)>, zone: Option<Zone>,
                     barrier: Option<Cell>, own: Cell, trust: real, power: Raising, leak: real)
    requires Settled(n, trust, leak) && Raises(power) && Distribution(g, n)
    requires InBounds(own, n) && (barrier.Some? ==> InBounds(barrier.value, n) && barrier.value != own)
    ensures Rules(Believe(g, n, entries, zone, barrier, own, trust, power, leak), n, own, barrier)
  {
    hide Fuse, Believe, Rules, Survives, Others, Margin;
    var wall := if barrier.Some? then barrier.value else Elsewhere(own);
    FuseKeepsAhead(g, n, entries, zone, trust, power, leak, own, wall);
    FuseKeepsAhead(g, n, entries, zone, trust, power, leak, wall, own);
    var fused := Fuse(g, n, entries, zone, trust, power, leak);
    AheadSurvives(fused, n, own, wall);
    BelieveRulesIff(g, n, entries, zone, barrier, own, trust, power, leak);
  }

  lemma PositiveKept(g: Grid, n: nat, cell: Cell, other: Cell)
    requires Distribution(g, n) && InBounds(cell, n) && InBounds(other, n) && other != cell
    requires At(Exclude(g, n, cell), cell) == 0.0 && At(g, other) > 0.0
    ensures At(Exclude(g, n, cell), other) > 0.0
  {
    hide Exclude;
    ExcludeWorksIff(g, n, cell);
    ZeroKept(g, n, cell, other);
  }

  /**
   * With some leak the support is exact: after an undecided message the belief is zero on the own cell and on the
   * barrier of that message and nowhere else - the filter rules out no other cell, not even an earlier barrier.
   */
  lemma SupportExact(g: Grid, n: nat, entries: seq<(string, Reading)>, zone: Option<Zone>,
                     barrier: Option<Cell>, own: Cell, trust: real, power: Raising, leak: real, cell: Cell)
    requires Settled(n, trust, leak) && leak > 0.0 && Raises(power) && Distribution(g, n)
    requires InBounds(own, n) && (barrier.Some? ==> InBounds(barrier.value, n) && barrier.value != own) &&
             InBounds(cell, n)
    ensures At(Believe(g, n, entries, zone, barrier, own, trust, power, leak), cell) == 0.0 <==>
            cell == own || barrier == Some(cell)
  {
    hide Fuse, Survives, Margin, Exclude, UniformMass, Distribution, At;
    BelieveHolds(g, n, entries, zone, barrier, own, trust, power, leak);
    if cell != own && barrier != Some(cell) {
      FuseFloor(g, n, entries, zone, trust, power, leak);
      var fused := Fuse(g, n, entries, zone, trust, power, leak);
      LeakedShareIsPositive(n, leak);
      FloorIsPositive(fused, n, leak * UniformMass(n) / 2.0, cell);
      if barrier.Some? {
        var wall := barrier.value;
        WallRuledOut(g, n, entries, zone, wall, own, trust, power, leak);
        PositiveKept(fused, n, wall, cell);
        ExcludeKeepsDistribution(fused, n, wall);
        PositiveKept(Exclude(fused, n, wall), n, own, cell);
      } else {
        PositiveKept(fused, n, own, cell);
      }
    }
  }

  lemma LeakedShareIsPositive(n: nat, leak: real)
    requires n >= 2 && leak > 0.0
    ensures leak * UniformMass(n) / 2.0 > 0.0
  {
    hide UniformMass;
    UniformSmall(n);
    ProductPositive(leak, UniformMass(n));
  }

  lemma FloorIsPositive(g: Grid, n: nat, u: real, cell: Cell)
    requires Square(g, n) && u > 0.0 && FloorEverywhere(g, n, u) && InBounds(cell, n)
    ensures At(g, cell) > 0.0
  {
  }

  lemma WallRuledOut(g: Grid, n: nat, entries: seq<(string, Reading)>, zone: Option<Zone>,
                     wall: Cell, own: Cell, trust: real, power: Raising, leak: real)
    requires Settled(n, trust, leak) && Raises(power) && Distribution(g, n)
    requires InBounds(own, n) && InBounds(wall, n) && wall != own
    ensures var fused := Fuse(g, n, entries, zone, trust, power, leak);
            Distribution(fused, n) && At(Exclude(fused, n, wall), wall) == 0.0
  {
    hide Fuse, Margin, Exclude, Others;
    FuseKeepsAhead(g, n, entries, zone, trust, power, leak, own, wall);
    FuseKeepsAhead(g, n, entries, zone, trust, power, leak, wall, own);
    var fused := Fuse(g, n, entries, zone, trust, power, leak);
    AheadSurvives(fused, n, own, wall);
    ExcludeWorksIff(fused, n, wall);
  }
}

/** What a message leaves outside any two cells, and exactly when its exclusions hold. */
module BeliefExclusions {
  import opened Board
  import opened Grids
  import opened Belief
  import opened Diffusion
  import opened BeliefBounds
  import opened Hints

  // ----- the mass outside two cells -----

  function Others(g: Grid, n: nat, a: Cell, b: Cell): real {
    Total(g) - At(g, a) - if a == b then 0.0 else At(g, b)
  }

  function Without(g: Grid, n: nat, a: Cell, b: Cell): (h: Grid)
    requires Square(g, n) && InBounds(a, n) && InBounds(b, n)
    ensures Square(h, n)
  {
    Put(Put(g, a.0, a.1, 0.0), b.0, b.1, 0.0)
  }

  lemma OthersIsTotal(g: Grid, n: nat, a: Cell, b: Cell)
    requires Square(g, n) && InBounds(a, n) && InBounds(b, n)
    ensures Total(Without(g, n, a, b)) == Others(g, n, a, b)
  {
    hide Total;
    TotalPut(g, a.0, a.1, 0.0);
    TotalPut(Put(g, a.0, a.1, 0.0), b.0, b.1, 0.0);
  }

  /** A cellwise lower bound is a lower bound on the mass outside two cells. */
  lemma OthersAtLeast(g: Grid, h: Grid, n: nat, a: Cell, b: Cell, k: real)
    requires Square(g, n) && Square(h, n) && InBounds(a, n) && InBounds(b, n)
    requires forall r, c :: 0 <= r < n && 0 <= c < n && (r, c) != a && (r, c) != b ==> k * g[r][c] <= h[r][c]
    ensures k * Others(g, n, a, b) <= Others(h, n, a, b)
  {
    hide Total, Others;
    WithoutAt(g, n, a, b);
    WithoutAt(h, n, a, b);
    var x, y := Without(g, n, a, b), Without(h, n, a, b);
    hide Without;
    forall r, c | 0 <= r < n && 0 <= c < n
      ensures k * x[r][c] <= y[r][c]
    {
      if x[r][c] == 0.0 && ((r, c) == a || (r, c) == b) {
        TimesZero(k);
      }
    }
    TotalAtLeast(x, y, n, k);
    OthersIsTotal(g, n, a, b);
    OthersIsTotal(h, n, a, b);
  }

  lemma TimesZero(k: real)
    ensures k * 0.0 == 0.0
  {
  }

  lemma TotalAtLeast(g: Grid, h: Grid, n: nat, k: real)
    requires Square(g, n) && Square(h, n)
    requires forall r, c :: 0 <= r < n && 0 <= c < n ==> k * g[r][c] <= h[r][c]
    ensures k * Total(g) <= Total(h)
  {
    hide Total;
    var low := Tabulate(n, (r: int, c: int) => k * At(g, (r, c)));
    TotalScale(k, g, low, n);
    TotalMonotone(low, h, n, n);
  }

  lemma WithoutAt(g: Grid, n: nat, a: Cell, b: Cell)
    requires Square(g, n) && InBounds(a, n) && InBounds(b, n)
    ensures forall r, c :: 0 <= r < n && 0 <= c < n ==>
              Without(g, n, a, b)[r][c] == if (r, c) == a || (r, c) == b then 0.0 else g[r][c]
  {
  }

  // ----- prediction never concentrates -----

  lemma ThreeOf(cells: seq<Cell>, a: Cell, b: Cell, c: Cell)
    requires a in cells && b in cells && c in cells && a != b && b != c && a != c
    ensures |cells| >= 3
  {
    var i :| 0 <= i < |cells| && cells[i] == a;
    var j :| 0 <= j < |cells| && cells[j] == b;
    var k :| 0 <= k < |cells| && cells[k] == c;
  }

  /** From any cell of a board of size at least two the Police may be in at least three places. */
  lemma ReachAtLeastThree(s: Cell, n: nat)
    requires n >= 2 && InBounds(s, n)
    ensures |Reach(s, n)| >= 3
  {
    hide Reach;
    ReachExact(s, n);
    var v := (if s.0 > 0 then s.0 - 1 else s.0 + 1, s.1);
    var w := (s.0, if s.1 > 0 then s.1 - 1 else s.1 + 1);
    assert Near(s, v) && Near(s, w) && Near(s, s);
    ThreeOf(Reach(s, n), s, v, w);
  }

  lemma ShareAtMostThird(g: Grid, n: nat, s: Cell)
    requires n >= 2 && Square(g, n) && NonNegative(g, n)
    ensures Share(g, n, s) <= At(Moving(g, n), s) / 3.0
  {
    hide Reach;
    if InBounds(s, n) {
      ReachAtLeastThree(s, n);
      QuotientMonotone(At(g, s), At(g, s), |Reach(s, n)| as real, 3.0);
    }
  }

  function Cleared(g: Grid, n: nat, p: Cell): (h: Grid)
    requires Square(g, n)
    ensures Square(h, n)
  {
    if InBounds(p, n) then Put(g, p.0, p.1, 0.0) else g
  }

  lemma ClearedExact(g: Grid, n: nat, p: Cell)
    requires Square(g, n) && NonNegative(g, n)
    ensures NonNegative(Cleared(g, n, p), n) && Total(Cleared(g, n, p)) == Total(g) - At(g, p)
    ensures forall q :: q != p ==> At(Cleared(g, n, p), q) == At(g, q)
  {
    hide Total;
    if InBounds(p, n) {
      TotalPut(g, p.0, p.1, 0.0);
    }
  }

  /** A cell and its four neighbours hold no more than the whole grid. */
  lemma FiveCells(g: Grid, n: nat, t: Cell)
    requires Square(g, n) && NonNegative(g, n)
    ensures At(g, t) + At(g, (t.0 - 1, t.1)) + At(g, (t.0 + 1, t.1)) + At(g, (t.0, t.1 - 1)) + At(g, (t.0, t.1 + 1))
         <= Total(g)
  {
    hide Total, At, Cleared;
    var up, down, left, right := (t.0 - 1, t.1), (t.0 + 1, t.1), (t.0, t.1 - 1), (t.0, t.1 + 1);
    var one := Cleared(g, n, t);
    ClearedExact(g, n, t);
    var two := Cleared(one, n, up);
    ClearedExact(one, n, up);
    var three := Cleared(two, n, down);
    ClearedExact(two, n, down);
    var four := Cleared(three, n, left);
    ClearedExact(three, n, left);
    ClearedExact(four, n, right);
    TotalNonNegative(Cleared(four, n, right), n);
  }

  lemma GatherAtMostThird(g: Grid, n: nat, t: Cell)
    requires n >= 2 && Square(g, n) && NonNegative(g, n)
    ensures Gather(g, n, t) <= Total(Spread(g, n)) / 3.0
  {
    hide Total, Share, Spread, At;
    MovingNonNegative(g, n);
    FiveCells(Moving(g, n), n, t);
    SpreadConserves(g, n);
    ShareAtMostThird(g, n, t);
    ShareAtMostThird(g, n, (t.0 - 1, t.1));
    ShareAtMostThird(g, n, (t.0 + 1, t.1));
    ShareAtMostThird(g, n, (t.0, t.1 - 1));
    ShareAtMostThird(g, n, (t.0, t.1 + 1));
  }

  lemma MovingNonNegative(g: Grid, n: nat)
    requires Square(g, n) && NonNegative(g, n)
    ensures NonNegative(Moving(g, n), n)
  {
  }

  lemma UniformSmall(n: nat)
    requires n >= 2
    ensures 0.0 < UniformMass(n) <= 0.25
  {
    UniformTotal(n);
    var x, u := n as real, UniformMass(n);
    ProductMonotone(u, 2.0, x);
    ProductMonotone(x * u, 2.0, x);
  }

  /** After prediction no cell holds more than a third of the belief. */
  lemma DiffusedAtMostThird(g: Grid, n: nat, t: Cell)
    requires n >= 2 && Distribution(g, n) && InBounds(t, n)
    ensures At(Diffuse(g, n), t) <= 1.0 / 3.0
  {
    hide Total, Gather, UniformMass, Normalize;
    var s := Spread(g, n);
    GatherAtMostThird(g, n, t);
    if Total(s) >= EPSILON {
      NormalizeAt(s, n);
      QuotientAtMost(At(s, t), Total(s));
    } else {
      NormalizeFallsBack(s, n);
      UniformSmall(n);
    }
  }

  lemma NormalizeFallsBack(g: Grid, n: nat)
    requires Total(g) < EPSILON
    ensures Normalize(g, n) == Uniform(n)
  {
  }

  lemma QuotientAtMost(x: real, total: real)
    requires total > 0.0 && x <= total / 3.0
    ensures x / total <= 1.0 / 3.0
  {
    var q := x / total;
    assert q * total == x;
    SignOfFactor(1.0 / 3.0 - q, total);
  }

  // ----- through a whole message -----

  /** The part of the belief that scent, leak and hint must leave outside any two cells. */
  function Remainder(trust: real): real
    requires trust >= 0.0
  {
    1.0 / (3.0 * (1.0 + trust))
  }

  lemma RemainderRange(trust: real)
    requires trust >= 0.0
    ensures 0.0 < Remainder(trust) <= 1.0 / 3.0 && (1.0 / (1.0 + trust)) * (1.0 / 3.0) == Remainder(trust)
  {
    var y := 3.0 * (1.0 + trust);
    assert Remainder(trust) * y == 1.0;
    var z := 1.0 / (1.0 + trust);
    assert z * (1.0 + trust) == 1.0;
    assert (z * (1.0 / 3.0)) * y == 1.0;
    QuotientMonotone(1.0, 1.0, y, 3.0);
  }

  lemma ScentLeaves(g: Grid, n: nat, entries: seq<(string, Reading)>, trust: real, power: Raising, a: Cell, b: Cell)
    requires n >= 2 && Distribution(g, n) && Raises(power) && trust >= 0.0 && InBounds(a, n) && InBounds(b, n)
    ensures var readings := ParseReadings(entries, n);
            var sharp := Normalize(Sharpen(Diffuse(g, n), n, readings, Peak(readings), trust, power), n);
            Distribution(sharp, n) && Others(sharp, n, a, b) >= Remainder(trust)
  {
    hide Total, Normalize, Sharpen, ParseReadings, Diffuse, Remainder, Others;
    var d, readings := Diffuse(g, n), ParseReadings(entries, n);
    var sharp := Normalize(Sharpen(d, n, readings, Peak(readings), trust, power), n);
    DiffuseIsDistribution(g, n);
    DiffusedAtMostThird(g, n, a);
    DiffusedAtMostThird(g, n, b);
    ScentInfluence(d, n, entries, trust, power);
    var k := 1.0 / (1.0 + trust);
    forall r, c | 0 <= r < n && 0 <= c < n
      ensures k * d[r][c] <= sharp[r][c]
    {
      QuotientIsProduct(d[r][c], 1.0 + trust);
    }
    OthersAtLeast(d, sharp, n, a, b, k);
    OthersOfDistribution(d, n, a, b);
    ThirdOf(trust, Others(d, n, a, b));
  }

  lemma ThirdOf(trust: real, x: real)
    requires trust >= 0.0 && x >= 1.0 / 3.0
    ensures (1.0 / (1.0 + trust)) * x >= Remainder(trust)
  {
    hide Remainder;
    RemainderRange(trust);
    var k := 1.0 / (1.0 + trust);
    NonNegativeQuotient(1.0, 1.0 + trust);
    ProductMonotone(k, 1.0 / 3.0, x);
  }

  lemma QuotientIsProduct(x: real, y: real)
    requires y > 0.0
    ensures (1.0 / y) * x == x / y
  {
  }

  lemma OthersOfDistribution(g: Grid, n: nat, a: Cell, b: Cell)
    requires Distribution(g, n) && At(g, a) <= 1.0 / 3.0 && At(g, b) <= 1.0 / 3.0
    ensures Others(g, n, a, b) >= 1.0 / 3.0
  {
    hide Total;
  }

  lemma Between(leak: real, x: real, y: real, low: real)
    requires 0.0 <= leak <= 1.0 && low <= x && low <= y
    ensures low <= (1.0 - leak) * x + leak * y
  {
    ProductNonNegative(1.0 - leak, x - low);
    ProductNonNegative(leak, y - low);
    assert (1.0 - leak) * (x - low) == (1.0 - leak) * x - low + leak * low;
    assert leak * (y - low) == leak * y - leak * low;
  }

  lemma LeakedAt(g: Grid, n: nat, leak: real, cell: Cell)
    requires Square(g, n) && InBounds(cell, n) && leak > 0.0
    ensures At(Leak(g, n, leak), cell) == (1.0 - leak) * At(g, cell) + leak * UniformMass(n)
  {
    hide UniformMass;
  }

  /** What the leak makes of the cells outside two. */
  lemma LeakedOthers(g: Grid, n: nat, leak: real, a: Cell, b: Cell)
    requires Distribution(g, n) && 0.0 < leak <= 1.0 && InBounds(a, n) && InBounds(b, n)
    ensures Others(Leak(g, n, leak), n, a, b)
         == (1.0 - leak) * Others(g, n, a, b) + leak * (1.0 - (if a == b then 1.0 else 2.0) * UniformMass(n))
  {
    hide Total, UniformMass, At, Leak;
    LeakFloor(g, n, leak);
    LeakedAt(g, n, leak, a);
    LeakedAt(g, n, leak, b);
    MixedOthers(leak, At(g, a), At(g, b), UniformMass(n));
  }

  lemma MixedOthers(l: real, p: real, q: real, u: real)
    ensures 1.0 - ((1.0 - l) * p + l * u) - ((1.0 - l) * q + l * u) == (1.0 - l) * (1.0 - p - q) + l * (1.0 - 2.0 * u)
    ensures 1.0 - ((1.0 - l) * p + l * u) == (1.0 - l) * (1.0 - p) + l * (1.0 - 1.0 * u)
  {
  }

  lemma LeakLeaves(g: Grid, n: nat, leak: real, a: Cell, b: Cell, low: real)
    requires n >= 2 && Distribution(g, n) && leak <= 1.0 && InBounds(a, n) && InBounds(b, n)
    requires low <= Others(g, n, a, b) && low <= 0.5
    ensures Distribution(Leak(g, n, leak), n) && Others(Leak(g, n, leak), n, a, b) >= low
  {
    hide Total, UniformMass, Others;
    if leak > 0.0 {
      hide Leak, Distribution;
      LeakFloor(g, n, leak);
      UniformSmall(n);
      LeakedOthers(g, n, leak, a, b);
      var spread := 1.0 - (if a == b then 1.0 else 2.0) * UniformMass(n);
      assert spread >= 0.5;
      Between(leak, Others(g, n, a, b), spread, low);
    }
  }

  /** Whatever the message, prediction, scent and hint leave a fixed part of the belief outside any two cells. */
  lemma FuseLeaves(g: Grid, n: nat, entries: seq<(string, Reading)>, zone: Option<Zone>,
                   trust: real, power: Raising, leak: real, a: Cell, b: Cell)
    requires n >= 2 && Distribution(g, n) && Raises(power) && trust >= 0.0 && leak <= 1.0 && InBounds(a, n) &&
             InBounds(b, n)
    ensures var h := Fuse(g, n, entries, zone, trust, power, leak);
            Distribution(h, n) && Others(h, n, a, b) >= Remainder(trust) / 2.0
  {
    hide Total, Normalize, Diffuse, Leak, ObserveLikelihoods, Sharpen, Evidence, ParseReadings, Others, Remainder;
    ScentLeaves(g, n, entries, trust, power, a, b);
    var readings := ParseReadings(entries, n);
    var sharp := Normalize(Sharpen(Diffuse(g, n), n, readings, Peak(readings), trust, power), n);
    RemainderRange(trust);
    LeakLeaves(sharp, n, leak, a, b, Remainder(trust));
    var leaked := Leak(sharp, n, leak);
    HintInfluence(leaked, n, zone);
    OthersAtLeast(leaked, ObserveLikelihoods(leaked, n, Evidence(zone, n)), n, a, b, 0.5);
  }

  // ----- the exact condition -----

  /** The fused belief leaves enough mass at each exclusion for it not to fall back to uniform. */
  predicate Survives(fused: Grid, barrier: Option<Cell>, own: Cell) {
    if barrier.None? then At(fused, own) <= 1.0 - EPSILON
    else
      At(fused, barrier.value) <= 1.0 - EPSILON &&
      EPSILON * (1.0 - At(fused, barrier.value)) <= 1.0 - At(fused, barrier.value) - At(fused, own)
  }

  lemma ExcludeKeepsDistribution(g: Grid, n: nat, cell: Cell)
    requires n >= 1 && Distribution(g, n)
    ensures Distribution(Exclude(g, n, cell), n)
  {
    hide Total, Normalize;
    if InBounds(cell, n) {
      NormalizeIsDistribution(Put(g, cell.0, cell.1, 0.0), n);
    }
  }

  /** What another cell holds after a cell was excluded. */
  lemma ExcludeAt(g: Grid, n: nat, cell: Cell, other: Cell)
    requires Distribution(g, n) && InBounds(cell, n) && InBounds(other, n) && other != cell
    ensures At(g, cell) <= 1.0 - EPSILON ==> At(Exclude(g, n, cell), other) == At(g, other) / (1.0 - At(g, cell))
    ensures At(g, cell) > 1.0 - EPSILON ==> Exclude(g, n, cell) == Uniform(n)
  {
    hide Total, Normalize;
    var zeroed := Put(g, cell.0, cell.1, 0.0);
    TotalPut(g, cell.0, cell.1, 0.0);
    if Total(zeroed) >= EPSILON {
      NormalizeAt(zeroed, n);
    } else {
      NormalizeFallsBack(zeroed, n);
    }
  }

  lemma RatioBelow(x: real, y: real)
    requires y > 0.0
    ensures x / y <= 1.0 - EPSILON <==> EPSILON * y <= y - x
  {
    var q := x / y;
    assert q * y == x;
    assert (1.0 - EPSILON - q) * y == y - EPSILON * y - x;
    if EPSILON * y <= y - x {
      SignOfFactor(1.0 - EPSILON - q, y);
    } else if q <= 1.0 - EPSILON {
      ProductNonNegative(1.0 - EPSILON - q, y);
    }
  }

  lemma ZeroKept(g: Grid, n: nat, cell: Cell, other: Cell)
    requires Distribution(g, n) && InBounds(cell, n) && InBounds(other, n) && other != cell &&
             At(g, cell) <= 1.0 - EPSILON
    ensures At(g, other) <= At(Exclude(g, n, cell), other) &&
            (At(g, other) == 0.0 ==> At(Exclude(g, n, cell), other) == 0.0)
  {
    hide Total, Exclude;
    TotalPut(g, cell.0, cell.1, 0.0);
    ExcludeExact(g, n, cell);
  }

  /** Both exclusions rule their cells out exactly when the fused belief survives them. */
  lemma ExclusionsIff(fused: Grid, n: nat, barrier: Option<Cell>, own: Cell)
    requires n >= 2 && Distribution(fused, n) && InBounds(own, n)
    requires barrier.Some? ==> InBounds(barrier.value, n) && barrier.value != own
    ensures var known := if barrier.Some? then Exclude(fused, n, barrier.value) else fused;
            Rules(Exclude(known, n, own), n, own, barrier) <==> Survives(fused, barrier, own)
  {
    hide Total, Exclude, Uniform, UniformMass;
    if barrier.None? {
      ExcludeKeepsDistribution(fused, n, own);
      ExcludeWorksIff(fused, n, own);
    } else {
      var wall := barrier.value;
      var known := Exclude(fused, n, wall);
      ExcludeKeepsDistribution(fused, n, wall);
      ExcludeKeepsDistribution(known, n, own);
      ExcludeWorksIff(fused, n, wall);
      ExcludeWorksIff(known, n, own);
      ExcludeAt(fused, n, wall, own);
      if At(fused, wall) <= 1.0 - EPSILON {
        RatioBelow(At(fused, own), 1.0 - At(fused, wall));
      } else {
        UniformAt(n, own);
        UniformAt(n, wall);
      }
      if At(known, own) <= 1.0 - EPSILON {
        ZeroKept(known, n, own, wall);
      }
    }
  }

  lemma UniformAt(n: nat, cell: Cell)
    requires n >= 2 && InBounds(cell, n)
    ensures 0.0 < At(Uniform(n), cell) <= 0.25
  {
    hide UniformMass;
    UniformSmall(n);
  }

  /** After an undecided message the exclusions hold exactly when the belief before them survives them. */
  lemma BelieveRulesIff(g: Grid, n: nat, entries: seq<(string, Reading)>, zone: Option<Zone>,
                        barrier: Option<Cell>, own: Cell, trust: real, power: Raising, leak: real)
    requires n >= 2 && Distribution(g, n) && Raises(power) && trust >= 0.0 && leak <= 1.0
    requires InBounds(own, n) && (barrier.Some? ==> InBounds(barrier.value, n) && barrier.value != own)
    ensures Rules(Believe(g, n, entries, zone, barrier, own, trust, power, leak), n, own, barrier)
            <==> Survives(Fuse(g, n, entries, zone, trust, power, leak), barrier, own)
  {
    hide Fuse, Rules, Survives, Exclude, Others;
    FuseLeaves(g, n, entries, zone, trust, power, leak, own, own);
    ExclusionsIff(Fuse(g, n, entries, zone, trust, power, leak), n, barrier, own);
  }
}

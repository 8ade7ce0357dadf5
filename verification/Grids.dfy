/** Square grids of reals, held as a list of rows, and the row-by-row sum of all their cells. */
module Grids {

  type Grid = seq<seq<real>>

  predicate Square(g: Grid, n: nat) {
    |g| == n && forall r :: 0 <= r < n ==> |g[r]| == n
  }

  /** The square grid whose cell (r, c) holds f(r, c). */
  function Tabulate(n: nat, f: (int, int) -> real): (g: Grid)
    ensures Square(g, n)
    ensures forall r, c :: 0 <= r < n && 0 <= c < n ==> g[r][c] == f(r, c)
  {
    seq(n, r => seq(n, c => f(r, c)))
  }

  function Put(g: Grid, r: int, c: int, v: real): Grid
    requires 0 <= r < |g| && 0 <= c < |g[r]|
  {
    g[r := g[r][c := v]]
  }

  function RowSum(row: seq<real>): real {
    if row == [] then 0.0 else RowSum(row[..|row| - 1]) + row[|row| - 1]
  }

  function Total(g: Grid): real {
    if g == [] then 0.0 else Total(g[..|g| - 1]) + RowSum(g[|g| - 1])
  }

  predicate Rectangular(g: Grid, m: nat, n: nat) {
    |g| == m && forall r :: 0 <= r < m ==> |g[r]| == n
  }

  lemma SameCellsEqual(g: Grid, h: Grid, n: nat)
    requires Square(g, n) && Square(h, n)
    requires forall r, c :: 0 <= r < n && 0 <= c < n ==> g[r][c] == h[r][c]
    ensures g == h
  {
    forall r | 0 <= r < n
      ensures g[r] == h[r]
    {
    }
  }

  // ----- one row -----

  /** f distributes over addition, as multiplying by a constant does. */
  ghost predicate Additive(f: real -> real) {
    f(0.0) == 0.0 && forall x: real, y: real :: f(x + y) == f(x) + f(y)
  }

  lemma {:induction false} RowSumMap(f: real -> real, x: seq<real>, z: seq<real>)
    requires Additive(f)
    requires |x| == |z|
    requires forall i :: 0 <= i < |z| ==> z[i] == f(x[i])
    ensures RowSum(z) == f(RowSum(x))
  {
    if z != [] {
      RowSumMap(f, x[..|z| - 1], z[..|z| - 1]);
    }
  }

  lemma {:induction false} RowSumAdd(x: seq<real>, y: seq<real>, z: seq<real>)
    requires |x| == |y| == |z|
    requires forall i :: 0 <= i < |z| ==> z[i] == x[i] + y[i]
    ensures RowSum(z) == RowSum(x) + RowSum(y)
  {
    if z != [] {
      RowSumAdd(x[..|z| - 1], y[..|z| - 1], z[..|z| - 1]);
    }
  }

  lemma {:induction false} RowSumMonotone(x: seq<real>, y: seq<real>)
    requires |x| == |y|
    requires forall i :: 0 <= i < |x| ==> x[i] <= y[i]
    ensures RowSum(x) <= RowSum(y)
  {
    if x != [] {
      RowSumMonotone(x[..|x| - 1], y[..|y| - 1]);
    }
  }

  lemma {:induction false} RowSumPut(x: seq<real>, c: nat, v: real)
    requires c < |x|
    ensures RowSum(x[c := v]) == RowSum(x) - x[c] + v
  {
    var k := |x| - 1;
    if c == k {
      assert x[c := v][..k] == x[..k];
    } else {
      assert x[c := v][..k] == x[..k][c := v];
      RowSumPut(x[..k], c, v);
    }
  }

  lemma {:induction false} RowSumConstant(x: seq<real>, v: real)
    requires forall i :: 0 <= i < |x| ==> x[i] == v
    ensures RowSum(x) == |x| as real * v
  {
    if x != [] {
      RowSumConstant(x[..|x| - 1], v);
      assert (|x| - 1) as real == |x| as real - 1.0;
    }
  }

  // ----- whole grids -----

  lemma {:induction false} TotalMap(f: real -> real, g: Grid, k: Grid, m: nat, n: nat)
    requires Additive(f)
    requires Rectangular(g, m, n) && Rectangular(k, m, n)
    requires forall r, c :: 0 <= r < m && 0 <= c < n ==> k[r][c] == f(g[r][c])
    ensures Total(k) == f(Total(g))
  {
    if m > 0 {
      var l := m - 1;
      TotalMap(f, g[..l], k[..l], l, n);
      RowSumMap(f, g[l], k[l]);
    }
  }

  lemma ProductOfSum(a: real, x: real, y: real, ax: real, ay: real, az: real)
    requires ax == a * x && ay == a * y && az == a * (x + y)
    ensures az == ax + ay
  {
  }

  lemma QuotientOfSum(a: real, x: real, y: real, ax: real, ay: real, az: real)
    requires a != 0.0
    requires ax == x / a && ay == y / a && az == (x + y) / a
    ensures az == ax + ay
  {
  }

  lemma Multiplying(f: real -> real, a: real)
    requires forall x: real :: f(x) == a * x
    ensures Additive(f)
  {
    forall x: real, y: real
      ensures f(x + y) == f(x) + f(y)
    {
      ProductOfSum(a, x, y, f(x), f(y), f(x + y));
    }
  }

  lemma Dividing(f: real -> real, a: real)
    requires a != 0.0
    requires forall x: real :: f(x) == x / a
    ensures Additive(f)
  {
    forall x: real, y: real
      ensures f(x + y) == f(x) + f(y)
    {
      QuotientOfSum(a, x, y, f(x), f(y), f(x + y));
    }
  }

  lemma Multiplier(a: real) returns (f: real -> real)
    ensures forall x: real :: f(x) == a * x
  {
    f := (x: real) => a * x;
  }

  lemma Divider(a: real) returns (f: real -> real)
    requires a != 0.0
    ensures forall x: real :: f(x) == x / a
  {
    f := (x: real) => x / a;
  }

  /** Multiplying every cell by a multiplies the sum by a. */
  lemma TotalScale(a: real, g: Grid, k: Grid, n: nat)
    requires Square(g, n) && Square(k, n)
    requires forall r, c :: 0 <= r < n && 0 <= c < n ==> k[r][c] == a * g[r][c]
    ensures Total(k) == a * Total(g)
  {
    hide Total, Additive;
    var f := Multiplier(a);
    Multiplying(f, a);
    TotalMap(f, g, k, n, n);
  }

  /** Dividing every cell by a divides the sum by a. */
  lemma TotalDivide(a: real, g: Grid, k: Grid, n: nat)
    requires a != 0.0
    requires Square(g, n) && Square(k, n)
    requires forall r, c :: 0 <= r < n && 0 <= c < n ==> k[r][c] == g[r][c] / a
    ensures Total(k) == Total(g) / a
  {
    hide Total, Additive;
    var f := Divider(a);
    Dividing(f, a);
    TotalMap(f, g, k, n, n);
  }

  lemma {:induction false} TotalAdd(g: Grid, h: Grid, k: Grid, m: nat, n: nat)
    requires Rectangular(g, m, n) && Rectangular(h, m, n) && Rectangular(k, m, n)
    requires forall r, c :: 0 <= r < m && 0 <= c < n ==> k[r][c] == g[r][c] + h[r][c]
    ensures Total(k) == Total(g) + Total(h)
  {
    if m > 0 {
      var l := m - 1;
      TotalAdd(g[..l], h[..l], k[..l], l, n);
      RowSumAdd(g[l], h[l], k[l]);
    }
  }

  lemma {:induction false} TotalMonotone(g: Grid, h: Grid, m: nat, n: nat)
    requires Rectangular(g, m, n) && Rectangular(h, m, n)
    requires forall r, c :: 0 <= r < m && 0 <= c < n ==> g[r][c] <= h[r][c]
    ensures Total(g) <= Total(h)
  {
    if m > 0 {
      var l := m - 1;
      TotalMonotone(g[..l], h[..l], l, n);
      RowSumMonotone(g[l], h[l]);
    }
  }

  lemma {:induction false} TotalPut(g: Grid, r: nat, c: nat, v: real)
    requires r < |g| && c < |g[r]|
    ensures Total(Put(g, r, c, v)) == Total(g) - g[r][c] + v
  {
    var l := |g| - 1;
    var h := Put(g, r, c, v);
    if r == l {
      assert h[..l] == g[..l];
      RowSumPut(g[r], c, v);
    } else {
      assert h[..l] == Put(g[..l], r, c, v);
      TotalPut(g[..l], r, c, v);
    }
  }

  lemma {:induction false} TotalConstant(g: Grid, m: nat, n: nat, v: real)
    requires Rectangular(g, m, n)
    requires forall r, c :: 0 <= r < m && 0 <= c < n ==> g[r][c] == v
    ensures Total(g) == m as real * (n as real * v)
  {
    if m > 0 {
      var l := m - 1;
      TotalConstant(g[..l], l, n, v);
      RowSumConstant(g[l], v);
      assert l as real == m as real - 1.0;
    }
  }

  predicate NonNegative(g: Grid, n: nat)
    requires Square(g, n)
  {
    forall r, c :: 0 <= r < n && 0 <= c < n ==> 0.0 <= g[r][c]
  }

  lemma TotalNonNegative(g: Grid, n: nat)
    requires Square(g, n) && NonNegative(g, n)
    ensures 0.0 <= Total(g)
  {
    var zero := Tabulate(n, (r: int, c: int) => 0.0);
    TotalConstant(zero, n, n, 0.0);
    TotalMonotone(zero, g, n, n);
  }
}

/** The scatter loop of the prediction step, its gather form, and the mass it conserves. */
module Diffusion {
  import opened Board
  import opened Grids
  import opened Belief

  // ----- the cells a source reaches -----

  predicate Near(a: Cell, b: Cell) {
    a == b || Adjacent(a, b)
  }

  ghost predicate NoRepeats(cells: seq<Cell>) {
    forall i, j :: 0 <= i < j < |cells| ==> cells[i] != cells[j]
  }

  lemma ShiftIs(cell: Cell, offset: (int, int), t: Cell)
    ensures Shift(cell, offset) == t <==> offset == (t.0 - cell.0, t.1 - cell.1)
  {
  }

  lemma {:induction false} ReachFromExact(cell: Cell, n: nat, offsets: seq<(int, int)>)
    requires forall i, j :: 0 <= i < j < |offsets| ==> offsets[i] != offsets[j]
    ensures forall t :: t in ReachFrom(cell, n, offsets) <==>
              InBounds(t, n) && (t.0 - cell.0, t.1 - cell.1) in offsets
    ensures NoRepeats(ReachFrom(cell, n, offsets))
  {
    hide Shift, InBounds;
    if offsets != [] {
      var rest := offsets[1..];
      assert offsets == [offsets[0]] + rest;
      ReachFromExact(cell, n, rest);
      ShiftIs(cell, offsets[0], Shift(cell, offsets[0]));
      assert offsets[0] !in rest;
      forall t
        ensures t in ReachFrom(cell, n, offsets) <==> InBounds(t, n) && (t.0 - cell.0, t.1 - cell.1) in offsets
      {
        ShiftIs(cell, offsets[0], t);
      }
    }
  }

  /** A source reaches exactly the board cells at distance at most one, each once. */
  lemma ReachExact(cell: Cell, n: nat)
    ensures forall t :: t in Reach(cell, n) <==> InBounds(t, n) && Near(cell, t)
    ensures NoRepeats(Reach(cell, n))
    ensures InBounds(cell, n) ==> Reach(cell, n) != []
  {
    ReachFromExact(cell, n, OFFSETS);
    forall t
      ensures Near(cell, t) <==> (t.0 - cell.0, t.1 - cell.1) in OFFSETS
    {
      assert OFFSETS == [(0, 0), (-1, 0), (1, 0), (0, -1), (0, 1)];
    }
    assert InBounds(cell, n) ==> cell in Reach(cell, n);
  }

  // ----- adding one source's share to its targets -----

  predicate AllInBounds(cells: seq<Cell>, n: nat) {
    forall i :: 0 <= i < |cells| ==> InBounds(cells[i], n)
  }

  function AddShares(g: Grid, n: nat, targets: seq<Cell>, share: real): (h: Grid)
    requires Square(g, n) && AllInBounds(targets, n)
    ensures Square(h, n)
  {
    if targets == [] then g
    else
      var t := targets[|targets| - 1];
      var h := AddShares(g, n, targets[..|targets| - 1], share);
      Put(h, t.0, t.1, h[t.0][t.1] + share)
  }

  lemma {:induction false} AddSharesAt(g: Grid, n: nat, targets: seq<Cell>, share: real, cell: Cell)
    requires Square(g, n) && AllInBounds(targets, n) && NoRepeats(targets) && InBounds(cell, n)
    ensures At(AddShares(g, n, targets, share), cell) == At(g, cell) + if cell in targets then share else 0.0
  {
    if targets != [] {
      var front := targets[..|targets| - 1];
      assert targets == front + [targets[|targets| - 1]];
      AddSharesAt(g, n, front, share, cell);
    }
  }

  function Times(k: nat, x: real): real {
    if k == 0 then 0.0 else Times(k - 1, x) + x
  }

  lemma {:induction false} TimesIsProduct(k: nat, x: real)
    ensures Times(k, x) == k as real * x
  {
    if k > 0 {
      TimesIsProduct(k - 1, x);
      assert (k - 1) as real == k as real - 1.0;
    }
  }

  lemma {:induction false} AddSharesTotal(g: Grid, n: nat, targets: seq<Cell>, share: real)
    requires Square(g, n) && AllInBounds(targets, n)
    ensures Total(AddShares(g, n, targets, share)) == Total(g) + Times(|targets|, share)
  {
    if targets != [] {
      var t, front := targets[|targets| - 1], targets[..|targets| - 1];
      AddSharesTotal(g, n, front, share);
      var h := AddShares(g, n, front, share);
      TotalPut(h, t.0, t.1, h[t.0][t.1] + share);
    }
  }

  // ----- the scan, source by source, for any amount sent by each source -----

  function SentBefore(send: Cell -> real, source: Cell, r: nat, c: nat): real {
    if RowMajorBefore(source, (r, c)) then send(source) else 0.0
  }

  /** What cell t has received once every source before (r, c) has been scanned. */
  function ReceivedBefore(send: Cell -> real, t: Cell, r: nat, c: nat): real {
    SentBefore(send, t, r, c) + SentBefore(send, (t.0 - 1, t.1), r, c) + SentBefore(send, (t.0 + 1, t.1), r, c)
    + SentBefore(send, (t.0, t.1 - 1), r, c) + SentBefore(send, (t.0, t.1 + 1), r, c)
  }

  function SpreadBefore(send: Cell -> real, n: nat, r: nat, c: nat): (g: Grid)
    ensures Square(g, n)
  {
    Tabulate(n, (i: int, j: int) => ReceivedBefore(send, (i, j), r, c))
  }

  /** One iteration of the scan: the source at (r, c) sends its amount to every cell it reaches. */
  lemma ScanStep(send: Cell -> real, n: nat, r: nat, c: nat)
    requires r < n && c < n
    ensures Reach((r, c), n) != [] && AllInBounds(Reach((r, c), n), n)
    ensures SpreadBefore(send, n, r, c + 1) == AddShares(SpreadBefore(send, n, r, c), n, Reach((r, c), n), send((r, c)))
  {
    hide Reach, ReceivedBefore, RowMajorBefore;
    var targets := Reach((r, c), n);
    ReachExact((r, c), n);
    forall i | 0 <= i < |targets|
      ensures InBounds(targets[i], n)
    {
      assert targets[i] in targets;
    }
    var before, after := SpreadBefore(send, n, r, c), SpreadBefore(send, n, r, c + 1);
    var added := AddShares(before, n, targets, send((r, c)));
    forall i, j | 0 <= i < n && 0 <= j < n
      ensures after[i][j] == added[i][j]
    {
      AddSharesAt(before, n, targets, send((r, c)), (i, j));
      ReceivedStep(send, (i, j), r, c);
    }
    SameCellsEqual(after, added, n);
  }

  lemma ReceivedStep(send: Cell -> real, t: Cell, r: nat, c: nat)
    ensures ReceivedBefore(send, t, r, c + 1)
         == ReceivedBefore(send, t, r, c) + if Near((r, c), t) then send((r, c)) else 0.0
  {
    forall s: Cell
      ensures SentBefore(send, s, r, c + 1) == SentBefore(send, s, r, c) + if s == (r, c) then send((r, c)) else 0.0
    {
    }
  }

  /** Cells off the board send nothing. */
  ghost predicate OnBoardOnly(send: Cell -> real, n: nat) {
    forall s: Cell {:trigger send(s)} :: !InBounds(s, n) ==> send(s) == 0.0
  }

  lemma NextRow(send: Cell -> real, n: nat, r: nat)
    requires OnBoardOnly(send, n)
    ensures SpreadBefore(send, n, r, n) == SpreadBefore(send, n, r + 1, 0)
  {
    forall s: Cell
      ensures SentBefore(send, s, r, n) == SentBefore(send, s, r + 1, 0)
    {
    }
    SameCellsEqual(SpreadBefore(send, n, r, n), SpreadBefore(send, n, r + 1, 0), n);
  }

  lemma ScanStart(send: Cell -> real, n: nat)
    requires OnBoardOnly(send, n)
    ensures SpreadBefore(send, n, 0, 0) == Tabulate(n, (r: int, c: int) => 0.0)
  {
    forall s: Cell
      ensures SentBefore(send, s, 0, 0) == 0.0
    {
    }
    SameCellsEqual(SpreadBefore(send, n, 0, 0), Tabulate(n, (r: int, c: int) => 0.0), n);
  }

  /** Scanning the whole board leaves, in each cell, the sum over its five possible sources. */
  lemma ScanEnd(send: Cell -> real, n: nat, t: Cell)
    requires OnBoardOnly(send, n) && InBounds(t, n)
    ensures At(SpreadBefore(send, n, n, 0), t)
         == send(t) + send((t.0 - 1, t.1)) + send((t.0 + 1, t.1)) + send((t.0, t.1 - 1)) + send((t.0, t.1 + 1))
  {
    forall s: Cell
      ensures SentBefore(send, s, n, 0) == send(s)
    {
    }
  }

  // ----- conservation -----

  function MovedBefore(mass: Cell -> real, n: nat, r: nat, c: nat): Grid {
    Tabulate(n, (i: int, j: int) => SentBefore(mass, (i, j), r, c))
  }

  lemma MovedStep(mass: Cell -> real, n: nat, r: nat, c: nat)
    requires r < n && c < n
    ensures Total(MovedBefore(mass, n, r, c + 1)) == Total(MovedBefore(mass, n, r, c)) + mass((r, c))
  {
    var before := MovedBefore(mass, n, r, c);
    TotalPut(before, r, c, mass((r, c)));
    SameCellsEqual(MovedBefore(mass, n, r, c + 1), Put(before, r, c, mass((r, c))), n);
  }

  lemma SpreadStep(send: Cell -> real, n: nat, r: nat, c: nat)
    requires r < n && c < n
    ensures Total(SpreadBefore(send, n, r, c + 1))
         == Total(SpreadBefore(send, n, r, c)) + Times(|Reach((r, c), n)|, send((r, c)))
  {
    ScanStep(send, n, r, c);
    AddSharesTotal(SpreadBefore(send, n, r, c), n, Reach((r, c), n), send((r, c)));
  }

  lemma MovedNextRow(mass: Cell -> real, n: nat, r: nat)
    ensures MovedBefore(mass, n, r, n) == MovedBefore(mass, n, r + 1, 0)
  {
    SameCellsEqual(MovedBefore(mass, n, r, n), MovedBefore(mass, n, r + 1, 0), n);
  }

  lemma NothingMoved(mass: Cell -> real, n: nat)
    ensures MovedBefore(mass, n, 0, 0) == Tabulate(n, (r: int, c: int) => 0.0)
  {
    SameCellsEqual(MovedBefore(mass, n, 0, 0), Tabulate(n, (r: int, c: int) => 0.0), n);
  }

  ghost predicate Conserved(send: Cell -> real, mass: Cell -> real, n: nat, r: nat, c: nat) {
    Total(SpreadBefore(send, n, r, c)) == Total(MovedBefore(mass, n, r, c))
  }

  /** A source that splits its mass over the cells it reaches keeps the sum. */
  lemma ConservedStep(send: Cell -> real, mass: Cell -> real, n: nat, r: nat, c: nat)
    requires r < n && c < n
    requires Times(|Reach((r, c), n)|, send((r, c))) == mass((r, c))
    requires Conserved(send, mass, n, r, c)
    ensures Conserved(send, mass, n, r, c + 1)
  {
    hide SpreadBefore, MovedBefore, Reach, Total;
    SpreadStep(send, n, r, c);
    MovedStep(mass, n, r, c);
  }

  lemma ConservedNextRow(send: Cell -> real, mass: Cell -> real, n: nat, r: nat)
    requires OnBoardOnly(send, n)
    requires Conserved(send, mass, n, r, n)
    ensures Conserved(send, mass, n, r + 1, 0)
  {
    NextRow(send, n, r);
    MovedNextRow(mass, n, r);
  }

  lemma ConservedStart(send: Cell -> real, mass: Cell -> real, n: nat)
    requires OnBoardOnly(send, n)
    ensures Conserved(send, mass, n, 0, 0)
  {
    ScanStart(send, n);
    NothingMoved(mass, n);
  }

  // ----- the belief's own shares -----

  ghost function Shares(g: Grid, n: nat): Cell -> real {
    (s: Cell) => Share(g, n, s)
  }

  lemma SharesOnBoard(g: Grid, n: nat)
    ensures OnBoardOnly(Shares(g, n), n)
  {
  }

  /** The scatter loop, run to its end, is the gather form. */
  lemma ScatterIsGather(g: Grid, n: nat)
    ensures SpreadBefore(Shares(g, n), n, n, 0) == Spread(g, n)
  {
    SharesOnBoard(g, n);
    forall r, c | 0 <= r < n && 0 <= c < n
      ensures SpreadBefore(Shares(g, n), n, n, 0)[r][c] == Spread(g, n)[r][c]
    {
      ScanEnd(Shares(g, n), n, (r, c));
    }
    SameCellsEqual(SpreadBefore(Shares(g, n), n, n, 0), Spread(g, n), n);
  }

  lemma DivideBack(k: nat, x: real)
    requires k > 0
    ensures Times(k, x / k as real) == x
  {
    TimesIsProduct(k, x / k as real);
  }

  lemma ShareTimesReach(g: Grid, n: nat, source: Cell)
    requires Square(g, n) && InBounds(source, n)
    ensures Times(|Reach(source, n)|, Share(g, n, source)) == At(Moving(g, n), source)
  {
    ReachExact(source, n);
    if At(g, source) >= EPSILON {
      DivideBack(|Reach(source, n)|, At(g, source));
    } else {
      TimesIsProduct(|Reach(source, n)|, 0.0);
    }
  }

  ghost function Masses(g: Grid, n: nat): Cell -> real {
    (s: Cell) => At(Moving(g, n), s)
  }

  lemma AllMoved(g: Grid, n: nat)
    ensures MovedBefore(Masses(g, n), n, n, 0) == Moving(g, n)
  {
    SameCellsEqual(MovedBefore(Masses(g, n), n, n, 0), Moving(g, n), n);
  }

  ghost predicate Balanced(g: Grid, n: nat, r: nat, c: nat) {
    Conserved(Shares(g, n), Masses(g, n), n, r, c)
  }

  lemma BalancedStep(g: Grid, n: nat, r: nat, c: nat)
    requires Square(g, n) && r < n && c < n && Balanced(g, n, r, c)
    ensures Balanced(g, n, r, c + 1)
  {
    hide SpreadBefore, MovedBefore, Reach, Total, Share;
    ShareTimesReach(g, n, (r, c));
    ConservedStep(Shares(g, n), Masses(g, n), n, r, c);
  }

  lemma BalancedNextRow(g: Grid, n: nat, r: nat)
    requires Balanced(g, n, r, n)
    ensures Balanced(g, n, r + 1, 0)
  {
    SharesOnBoard(g, n);
    ConservedNextRow(Shares(g, n), Masses(g, n), n, r);
  }

  lemma BalancedStart(g: Grid, n: nat)
    ensures Balanced(g, n, 0, 0)
  {
    SharesOnBoard(g, n);
    ConservedStart(Shares(g, n), Masses(g, n), n);
  }

  lemma {:induction false} BalancedRow(g: Grid, n: nat, r: nat, c: nat)
    requires Square(g, n) && r < n && c <= n && Balanced(g, n, r, 0)
    ensures Balanced(g, n, r, c)
  {
    hide Balanced;
    if c > 0 {
      BalancedRow(g, n, r, c - 1);
      BalancedStep(g, n, r, c - 1);
    }
  }

  lemma {:induction false} BalancedScan(g: Grid, n: nat, r: nat)
    requires Square(g, n) && r <= n
    ensures Balanced(g, n, r, 0)
  {
    hide Balanced;
    if r == 0 {
      BalancedStart(g, n);
    } else {
      BalancedScan(g, n, r - 1);
      BalancedRow(g, n, r - 1, n);
      BalancedNextRow(g, n, r - 1);
    }
  }

  /** Before normalising, the prediction step carries exactly the mass it did not skip. */
  lemma SpreadConserves(g: Grid, n: nat)
    requires Square(g, n)
    ensures Total(Spread(g, n)) == Total(Moving(g, n))
  {
    BalancedScan(g, n, n);
    ScatterIsGather(g, n);
    AllMoved(g, n);
  }
}

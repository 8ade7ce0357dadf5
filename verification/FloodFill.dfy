/** The worklist flood fill used by both strategies, proved to count path-reachable cells. */
module FloodFill {
  import opened Board

  /** A walk from a to b whose every later cell is an open neighbour of the one before it. */
  ghost predicate IsPath(n: int, barriers: set<Cell>, a: Cell, b: Cell, p: seq<Cell>) {
    |p| > 0 && p[0] == a && p[|p| - 1] == b &&
    forall i :: 0 < i < |p| ==> Adjacent(p[i - 1], p[i]) && Open(p[i], n, barriers)
  }

  ghost predicate Joined(n: int, barriers: set<Cell>, a: Cell, b: Cell) {
    exists p :: IsPath(n, barriers, a, b, p)
  }

  ghost function BoardCells(n: int): set<Cell> {
    set r, c | 0 <= r < n && 0 <= c < n :: (r, c)
  }

  /** Every cell joined to start by legal steps, start included even when it is walled. */
  ghost function Region(n: int, barriers: set<Cell>, start: Cell): set<Cell> {
    set cell | cell in BoardCells(n) + {start} && Joined(n, barriers, start, cell)
  }

  /** The number the flood fill returns, as a value. */
  ghost function Area(n: int, barriers: set<Cell>, start: Cell): nat {
    |Region(n, barriers, start)|
  }

  lemma RegionExact(n: int, barriers: set<Cell>, start: Cell)
    ensures forall cell :: cell in Region(n, barriers, start) <==> Joined(n, barriers, start, cell)
  {
    forall cell | Joined(n, barriers, start, cell)
      ensures cell in BoardCells(n) + {start}
    {
      var p :| IsPath(n, barriers, start, cell, p);
      if |p| > 1 {
        assert Open(p[|p| - 1], n, barriers);
      }
    }
  }

  lemma SelfJoined(n: int, barriers: set<Cell>, a: Cell)
    ensures Joined(n, barriers, a, a)
  {
    assert IsPath(n, barriers, a, a, [a]);
  }

  lemma ExtendJoined(n: int, barriers: set<Cell>, a: Cell, b: Cell, c: Cell)
    requires Joined(n, barriers, a, b) && Adjacent(b, c) && Open(c, n, barriers)
    ensures Joined(n, barriers, a, c)
  {
    var p :| IsPath(n, barriers, a, b, p);
    assert IsPath(n, barriers, a, c, p + [c]);
  }

  /** A set closed under open neighbours keeps every path that starts inside it. */
  lemma {:induction false} ClosedHoldsPath(n: int, barriers: set<Cell>, closed: set<Cell>, a: Cell, b: Cell,
                                           p: seq<Cell>)
    requires a in closed && IsPath(n, barriers, a, b, p)
    requires forall x, y :: x in closed && Adjacent(x, y) && Open(y, n, barriers) ==> y in closed
    ensures b in closed
    decreases |p|
  {
    if |p| > 1 {
      var q := p[..|p| - 1];
      assert IsPath(n, barriers, a, q[|q| - 1], q);
      ClosedHoldsPath(n, barriers, closed, a, q[|q| - 1], q);
      assert Adjacent(p[|p| - 2], p[|p| - 1]);
    }
  }

  ghost predicate Explored(n: int, barriers: set<Cell>, seen: set<Cell>, pending: seq<Cell>) {
    forall x, y :: x in seen && x !in pending && Adjacent(x, y) && Open(y, n, barriers) ==> y in seen
  }

  ghost predicate NoRepeats(pending: seq<Cell>) {
    forall i, j :: 0 <= i < j < |pending| ==> pending[i] != pending[j]
  }

  /** The inner loop: mark and queue every neighbour that was not seen before. */
  method Enqueue(neighbors: seq<Cell>, seen0: set<Cell>, pending0: seq<Cell>)
    returns (seen: set<Cell>, pending: seq<Cell>)
    requires NoRepeats(pending0) && forall x :: x in pending0 ==> x in seen0
    ensures forall x :: x in seen <==> x in seen0 || x in neighbors
    ensures forall x :: x in pending <==> x in pending0 || (x in neighbors && x !in seen0)
    ensures NoRepeats(pending)
    ensures seen == seen0 ==> pending == pending0
  {
    seen, pending := seen0, pending0;
    for i := 0 to |neighbors|
      invariant forall x :: x in seen <==> x in seen0 || x in neighbors[..i]
      invariant forall x :: x in pending <==> x in pending0 || (x in neighbors[..i] && x !in seen0)
      invariant NoRepeats(pending) && forall x :: x in pending ==> x in seen
      invariant seen0 <= seen && (seen == seen0 ==> pending == pending0)
    {
      var neighbor := neighbors[i];
      assert neighbors[..i + 1] == neighbors[..i] + [neighbor];
      if neighbor !in seen {
        seen := seen + {neighbor};
        pending := pending + [neighbor];
      }
    }
    assert neighbors[..|neighbors|] == neighbors;
  }

  /** What the worklist loop keeps: only joined cells are seen, and only queued cells are unexplored. */
  ghost predicate Filling(n: int, barriers: set<Cell>, start: Cell, seen: set<Cell>, pending: seq<Cell>) {
    start in seen && NoRepeats(pending) &&
    (forall x :: x in pending ==> x in seen) &&
    (forall x :: x in seen ==> Joined(n, barriers, start, x)) &&
    Explored(n, barriers, seen, pending)
  }

  lemma FillingStep(n: int, barriers: set<Cell>, start: Cell, seen: set<Cell>, pending: seq<Cell>,
                    seen': set<Cell>, pending': seq<Cell>)
    requires Filling(n, barriers, start, seen, pending) && pending != []
    requires forall x :: x in seen' <==> x in seen || (Adjacent(pending[0], x) && Open(x, n, barriers))
    requires forall x :: x in pending' <==>
               x in pending[1..] || (Adjacent(pending[0], x) && Open(x, n, barriers) && x !in seen)
    requires NoRepeats(pending')
    ensures Filling(n, barriers, start, seen', pending')
  {
    var cell := pending[0];
    assert pending == [cell] + pending[1..];
    forall x | x in seen' && x !in seen
      ensures Joined(n, barriers, start, x)
    {
      ExtendJoined(n, barriers, start, cell, x);
    }
    forall x, y | x in seen' && x !in pending' && Adjacent(x, y) && Open(y, n, barriers)
      ensures y in seen'
    {
      if x != cell {
        assert x in seen && x !in pending;
      }
    }
  }

  lemma FilledIsRegion(n: int, barriers: set<Cell>, start: Cell, seen: set<Cell>)
    requires Filling(n, barriers, start, seen, [])
    ensures seen == Region(n, barriers, start)
  {
    RegionExact(n, barriers, start);
    forall x | Joined(n, barriers, start, x)
      ensures x in seen
    {
      var p :| IsPath(n, barriers, start, x, p);
      ClosedHoldsPath(n, barriers, seen, start, x, p);
    }
  }

  /** The breadth-first worklist loop returns exactly the size of the region of start. */
  method ReachableArea(n: int, start: Cell, barriers: set<Cell>) returns (area: nat)
    ensures area == Area(n, barriers, start)
  {
    var seen := {start};
    var pending := [start];
    ghost var region := Region(n, barriers, start);
    RegionExact(n, barriers, start);
    SelfJoined(n, barriers, start);
    while pending != []
      invariant Filling(n, barriers, start, seen, pending)
      invariant seen <= region
      decreases |region - seen|, |pending|
    {
      ghost var before, queue := seen, pending;
      var cell := pending[0];
      pending := pending[1..];
      NeighborsExact(n, cell, barriers);
      seen, pending := Enqueue(Neighbors(n, cell, barriers), seen, pending);
      FillingStep(n, barriers, start, before, queue, seen, pending);
      if seen != before {
        Shrinks(region, before, seen);
      }
    }
    FilledIsRegion(n, barriers, start, seen);
    return |seen|;
  }

  lemma Shrinks(cells: set<Cell>, before: set<Cell>, after: set<Cell>)
    requires before < after <= cells
    ensures |cells - after| < |cells - before|
  {
    var x :| x in after && x !in before;
    SubsetSize(cells - after, cells - before - {x});
  }

  lemma {:induction false} SubsetSize<T>(a: set<T>, b: set<T>)
    requires a <= b
    ensures |a| <= |b|
    ensures |a| == |b| ==> a == b
  {
    if a != {} {
      var x :| x in a;
      SubsetSize(a - {x}, b - {x});
    }
  }

  // ----- what the area means -----

  /** More barriers never enlarge the reachable area. */
  lemma AreaShrinksWithBarriers(n: int, few: set<Cell>, many: set<Cell>, start: Cell)
    requires few <= many
    ensures Region(n, many, start) <= Region(n, few, start)
    ensures Area(n, many, start) <= Area(n, few, start)
  {
    forall cell | cell in Region(n, many, start)
      ensures cell in Region(n, few, start)
    {
      var p :| IsPath(n, many, start, cell, p);
      assert IsPath(n, few, start, cell, p);
    }
    SubsetSize(Region(n, many, start), Region(n, few, start));
  }

  /** The area is one exactly when the start cell has no legal step. */
  lemma AreaOneIffConfined(n: int, barriers: set<Cell>, start: Cell)
    ensures Area(n, barriers, start) == 1 <==> Confined(n, start, barriers)
  {
    var region := Region(n, barriers, start);
    RegionExact(n, barriers, start);
    SelfJoined(n, barriers, start);
    ConfinedExact(n, start, barriers);
    if region != {start} {
      var cell :| cell in region && cell != start;
      var p :| IsPath(n, barriers, start, cell, p);
      assert Adjacent(p[0], p[1]) && Open(p[1], n, barriers);
    }
    if t: Cell :| Adjacent(start, t) && Open(t, n, barriers) {
      ExtendJoined(n, barriers, start, start, t);
      SubsetSize({start, t}, region);
    }
  }

  lemma ReversePath(n: int, barriers: set<Cell>, a: Cell, b: Cell, p: seq<Cell>)
    requires IsPath(n, barriers, a, b, p) && Open(a, n, barriers)
    ensures Joined(n, barriers, b, a)
  {
    var q := seq(|p|, i requires 0 <= i < |p| => p[|p| - 1 - i]);
    forall i | 0 < i < |q|
      ensures Adjacent(q[i - 1], q[i]) && Open(q[i], n, barriers)
    {
      var k := |p| - i;
      assert Adjacent(p[k - 1], p[k]);
    }
    assert IsPath(n, barriers, b, a, q);
  }

  lemma JoinedTransitive(n: int, barriers: set<Cell>, a: Cell, b: Cell, c: Cell)
    requires Joined(n, barriers, a, b) && Joined(n, barriers, b, c)
    ensures Joined(n, barriers, a, c)
  {
    var p :| IsPath(n, barriers, a, b, p);
    var q :| IsPath(n, barriers, b, c, q);
    assert IsPath(n, barriers, a, c, p + q[1..]);
  }

  /** Two open cells that are joined have the same region. */
  lemma JoinedSameRegion(n: int, barriers: set<Cell>, a: Cell, b: Cell)
    requires Open(a, n, barriers) && Joined(n, barriers, a, b)
    ensures Region(n, barriers, a) == Region(n, barriers, b)
  {
    var p :| IsPath(n, barriers, a, b, p);
    ReversePath(n, barriers, a, b, p);
    RegionExact(n, barriers, a);
    RegionExact(n, barriers, b);
    forall cell
      ensures Joined(n, barriers, a, cell) <==> Joined(n, barriers, b, cell)
    {
      if Joined(n, barriers, a, cell) {
        JoinedTransitive(n, barriers, b, a, cell);
      }
      if Joined(n, barriers, b, cell) {
        JoinedTransitive(n, barriers, a, b, cell);
      }
    }
  }

  /** From an open cell, every legal target has the area of the cell itself. */
  lemma TargetsShareArea(n: int, barriers: set<Cell>, position: Cell, m: Board.Move)
    requires Open(position, n, barriers) && m in LegalMoves(n, position, barriers)
    ensures Area(n, barriers, m.target) == Area(n, barriers, position)
  {
    LegalMovesExact(n, position, barriers);
    AdjacentIsStep(position, m.target);
    SelfJoined(n, barriers, position);
    ExtendJoined(n, barriers, position, position, m.target);
    JoinedSameRegion(n, barriers, position, m.target);
  }
}

/**
 * The pheromone field in whole thousandths: fading, radial deposits, and the wire form the other peer observes.
 * Rounding to three decimals is any function that moves a number by at most one half of a thousandth.
 */
module Scent {
  import opened Board
  import opened Belief
  import Wire

  /** Traces below ten thousandths (0.01) are dust. */
  const TRACE_FLOOR: int := 10

  ghost predicate Rounds(round: real -> int) {
    (forall x: real {:trigger round(x)} :: -0.5 <= round(x) as real - x <= 0.5) &&
    (forall x: real, y: real :: x <= y ==> round(x) <= round(y))
  }

  /** The radial shape of one emission, by squared distance: one at the centre and never growing outwards. */
  ghost predicate Falls(falloff: nat -> real) {
    falloff(0) == 1.0 &&
    (forall d: nat {:trigger falloff(d)} :: 0.0 <= falloff(d) <= 1.0) &&
    (forall d: nat, e: nat :: d <= e ==> falloff(e) <= falloff(d))
  }

  /** The agreed physical constants of one field. */
  datatype Terms = Terms(boardSize: nat, half: int, decay: real, intensity: real, minCenter: real)
  {
    ghost predicate Agreed() {
      boardSize >= 1 && half >= 0 && 0.0 <= decay <= 1.0 && 0.0 < intensity <= 1.0 && minCenter <= intensity
    }
  }

  type Field = map<Cell, int>

  function Intensity(field: Field, cell: Cell): int {
    if cell in field then field[cell] else 0
  }

  function Faded(round: real -> int, decay: real, v: int): int {
    round(v as real * (1.0 - decay))
  }

  function DecayAll(round: real -> int, decay: real, field: Field): Field {
    map cell | cell in field && Faded(round, decay, field[cell]) >= TRACE_FLOOR :: Faded(round, decay, field[cell])
  }

  function SquaredDistance(a: Cell, b: Cell): nat {
    var r, c := Abs(a.0 - b.0), Abs(a.1 - b.1);
    SquareNonNegative(r);
    SquareNonNegative(c);
    r * r + c * c
  }

  lemma SquareNonNegative(x: int)
    ensures x * x >= 0
  {
  }

  /** An emission of this intensity where only a fraction of it remains, in thousandths. */
  function Thousandths(intensity: real, fraction: real): real {
    Product(1000.0 * intensity, fraction)
  }

  function Product(x: real, y: real): real {
    x * y
  }

  function Emitted(round: real -> int, falloff: nat -> real, intensity: real, center: Cell, cell: Cell): int {
    round(Thousandths(intensity, falloff(SquaredDistance(center, cell))))
  }

  predicate InWindow(terms: Terms, center: Cell, cell: Cell) {
    Abs(cell.0 - center.0) <= terms.half && Abs(cell.1 - center.1) <= terms.half && InBounds(cell, terms.boardSize)
  }

  function Max(a: int, b: int): int { if a >= b then a else b }

  function Window(terms: Terms, center: Cell): set<Cell> {
    set r, c | 0 <= r < terms.boardSize && 0 <= c < terms.boardSize && InWindow(terms, center, (r, c)) :: (r, c)
  }

  /** One emission: the window cells on the board with their rounded intensities. */
  function Radial(round: real -> int, falloff: nat -> real, terms: Terms, center: Cell): Field {
    map cell | cell in Window(terms, center) :: Emitted(round, falloff, terms.intensity, center, cell)
  }

  /** One emission merged into the field, keeping the strongest value per cell. */
  function Deposit(round: real -> int, falloff: nat -> real, terms: Terms, field: Field, center: Cell): Field {
    var radial := Radial(round, falloff, terms, center);
    field + map cell | cell in radial :: Max(Intensity(field, cell), radial[cell])
  }

  function Emit(round: real -> int, falloff: nat -> real, terms: Terms, field: Field, position: Cell): Field {
    Deposit(round, falloff, terms, DecayAll(round, terms.decay, field), position)
  }

  /** The entries sent over the wire: one per live trace, keyed "row,column", in any order. */
  ghost predicate IsSnapshot(field: Field, entries: seq<(string, Reading)>) {
    (forall i, j :: 0 <= i < j < |entries| ==> entries[i].0 != entries[j].0) &&
    (forall i :: 0 <= i < |entries| ==> LiveEntry(field, entries[i])) &&
    (forall cell :: cell in field && field[cell] > 0 ==> WireEntry(field, cell) in entries)
  }

  ghost predicate LiveEntry(field: Field, entry: (string, Reading)) {
    exists cell :: cell in field && field[cell] > 0 && entry == WireEntry(field, cell)
  }

  function WireEntry(field: Field, cell: Cell): (string, Reading) {
    (Wire.FormatCell(cell), Number(Intensity(field, cell) as real / 1000.0))
  }

  lemma WindowExact(terms: Terms, center: Cell)
    ensures forall cell :: cell in Window(terms, center) <==> InWindow(terms, center, cell)
  {
    hide InWindow;
    forall cell | InWindow(terms, center, cell)
      ensures cell in Window(terms, center)
    {
      WindowOnBoard(terms, center, cell);
      assert cell == (cell.0, cell.1);
    }
  }

  lemma WindowOnBoard(terms: Terms, center: Cell, cell: Cell)
    requires InWindow(terms, center, cell)
    ensures InBounds(cell, terms.boardSize)
  {
  }

  /** A deposit raises exactly the cells of its window and leaves the others alone. */
  lemma DepositExact(round: real -> int, falloff: nat -> real, terms: Terms, field: Field, center: Cell)
    ensures var after := Deposit(round, falloff, terms, field, center);
            forall cell ::
              (cell in after <==> cell in field || InWindow(terms, center, cell)) &&
              (cell in after ==>
                 after[cell] == (if InWindow(terms, center, cell)
                                 then Max(Intensity(field, cell),
                                          Emitted(round, falloff, terms.intensity, center, cell))
                                 else Intensity(field, cell)))
  {
    hide Emitted, InWindow, Window;
    WindowExact(terms, center);
  }

  /** The window offsets scanned before (row, column). */
  predicate Scanned(terms: Terms, center: Cell, cell: Cell, row: int, column: int) {
    InWindow(terms, center, cell) &&
    (cell.0 - center.0 < row || (cell.0 - center.0 == row && cell.1 - center.1 < column))
  }

  ghost predicate RadialSoFar(round: real -> int, falloff: nat -> real, terms: Terms, center: Cell, row: int,
                              column: int, emitted: Field) {
    forall cell ::
      (cell in emitted <==> Scanned(terms, center, cell, row, column)) &&
      (cell in emitted ==> emitted[cell] == Emitted(round, falloff, terms.intensity, center, cell))
  }

  lemma RadialStep(round: real -> int, falloff: nat -> real, terms: Terms, center: Cell, row: int, column: int,
                   emitted: Field)
    requires -terms.half <= row <= terms.half && -terms.half <= column <= terms.half
    requires RadialSoFar(round, falloff, terms, center, row, column, emitted)
    ensures var cell := (center.0 + row, center.1 + column);
            RadialSoFar(round, falloff, terms, center, row, column + 1,
              if InBounds(cell, terms.boardSize)
              then emitted[cell := Emitted(round, falloff, terms.intensity, center, cell)] else emitted)
  {
    hide Emitted;
  }

  lemma RadialNextRow(round: real -> int, falloff: nat -> real, terms: Terms, center: Cell, row: int, emitted: Field)
    requires RadialSoFar(round, falloff, terms, center, row, terms.half + 1, emitted)
    ensures RadialSoFar(round, falloff, terms, center, row + 1, -terms.half, emitted)
  {
    hide Emitted;
  }

  lemma RadialEnd(round: real -> int, falloff: nat -> real, terms: Terms, center: Cell, row: int, emitted: Field)
    requires RadialSoFar(round, falloff, terms, center, row, -terms.half, emitted) && row > terms.half
    ensures emitted == Radial(round, falloff, terms, center)
  {
    hide Emitted, Window;
    WindowExact(terms, center);
  }

  /** The loops over the square window around the centre. */
  method EmitRadial(round: real -> int, falloff: nat -> real, terms: Terms, center: Cell) returns (emitted: Field)
    requires terms.half >= 0
    ensures emitted == Radial(round, falloff, terms, center)
  {
    hide Radial, Emitted;
    emitted := map[];
    var row := -terms.half;
    while row <= terms.half
      invariant -terms.half <= row <= terms.half + 1
      invariant RadialSoFar(round, falloff, terms, center, row, -terms.half, emitted)
    {
      var column := -terms.half;
      while column <= terms.half
        invariant -terms.half <= column <= terms.half + 1
        invariant RadialSoFar(round, falloff, terms, center, row, column, emitted)
      {
        var cell := (center.0 + row, center.1 + column);
        RadialStep(round, falloff, terms, center, row, column, emitted);
        if InBounds(cell, terms.boardSize) {
          emitted := emitted[cell := Emitted(round, falloff, terms.intensity, center, cell)];
        }
        column := column + 1;
      }
      RadialNextRow(round, falloff, terms, center, row, emitted);
      row := row + 1;
    }
    RadialEnd(round, falloff, terms, center, row, emitted);
  }

  class ScentField {
    const terms: Terms
    const round: real -> int
    const falloff: nat -> real
    var values: Field

    ghost predicate Valid() {
      terms.half >= 0
    }

    constructor (terms: Terms, round: real -> int, falloff: nat -> real)
      requires terms.boardSize >= 1 && terms.half >= 0
      ensures Valid() && values == map[] && this.terms == terms && this.round == round && this.falloff == falloff
    {
      this.terms, this.round, this.falloff, values := terms, round, falloff, map[];
    }

    method DecayField()
      modifies this
      ensures values == DecayAll(round, terms.decay, old(values))
    {
      ghost var was := values;
      var todo := values.Keys;
      while todo != {}
        invariant todo <= was.Keys && todo <= values.Keys <= was.Keys
        invariant forall cell :: cell in todo ==> values[cell] == was[cell]
        invariant forall cell :: cell in was.Keys - todo ==>
                    (cell in values <==> Faded(round, terms.decay, was[cell]) >= TRACE_FLOOR)
        invariant forall cell :: cell in was.Keys - todo && cell in values ==>
                  values[cell] == Faded(round, terms.decay, was[cell])
        decreases todo
      {
        var cell :| cell in todo;
        var faded := Faded(round, terms.decay, values[cell]);
        if faded >= TRACE_FLOOR {
          values := values[cell := faded];
        } else {
          values := values - {cell};
        }
        todo := todo - {cell};
      }
    }

    /** Refused, leaving the field unchanged, when the centre is below the agreed minimum. */
    method DepositAt(center: Cell) returns (ok: bool)
      requires Valid()
      modifies this
      ensures ok == (terms.intensity >= terms.minCenter)
      ensures values == if ok then Deposit(round, falloff, terms, old(values), center) else old(values)
    {
      hide Radial;
      if terms.intensity < terms.minCenter {
        return false;
      }
      var radial := EmitRadial(round, falloff, terms, center);
      ghost var was := values;
      var todo := radial.Keys;
      while todo != {}
        invariant todo <= radial.Keys
        invariant forall cell :: cell in values <==> cell in was || cell in radial.Keys - todo
        invariant forall cell :: cell in values ==>
                    values[cell] == (if cell in radial.Keys - todo then Max(Intensity(was, cell), radial[cell])
                                     else was[cell])
        decreases todo
      {
        var cell :| cell in todo;
        values := values[cell := Max(Intensity(values, cell), radial[cell])];
        todo := todo - {cell};
      }
      return true;
    }

    method Snapshot() returns (entries: seq<(string, Reading)>)
      ensures IsSnapshot(values, entries)
    {
      entries := [];
      var todo := values.Keys;
      while todo != {}
        invariant todo <= values.Keys
        invariant IsSnapshot(values - todo, entries)
        decreases todo
      {
        var cell :| cell in todo;
        ghost var rest := todo - {cell};
        if values[cell] > 0 {
          SnapshotGrows(values, todo, cell, entries);
          entries := entries + [WireEntry(values, cell)];
        } else {
          SnapshotSkips(values, todo, cell, entries);
        }
        todo := todo - {cell};
      }
      assert values - {} == values;
    }

    /** Fade the old trail, lay a fresh emission at the position and return its wire form. */
    method EmitAt(position: Cell) returns (ok: bool, entries: seq<(string, Reading)>)
      requires Valid()
      modifies this
      ensures ok == (terms.intensity >= terms.minCenter)
      ensures ok ==> values == Emit(round, falloff, terms, old(values), position) && IsSnapshot(values, entries)
      ensures !ok ==> values == DecayAll(round, terms.decay, old(values)) && entries == []
    {
      DecayField();
      ok := DepositAt(position);
      entries := [];
      if ok {
        entries := Snapshot();
      }
    }
  }

  lemma SnapshotGrows(field: Field, todo: set<Cell>, cell: Cell, entries: seq<(string, Reading)>)
    requires cell in todo && cell in field && field[cell] > 0
    requires IsSnapshot(field - todo, entries)
    ensures IsSnapshot(field - (todo - {cell}), entries + [WireEntry(field, cell)])
  {
    hide Wire.FormatCell;
    var before, after := field - todo, field - (todo - {cell});
    var longer := entries + [WireEntry(field, cell)];
    forall i | 0 <= i < |entries|
      ensures entries[i].0 != Wire.FormatCell(cell)
      ensures LiveEntry(after, entries[i])
    {
      var x :| x in before && before[x] > 0 && entries[i] == WireEntry(before, x);
      if Wire.FormatCell(x) == Wire.FormatCell(cell) {
        Wire.FormatCellInjective(x, cell);
      }
      assert x in after && entries[i] == WireEntry(after, x);
    }
    assert cell in after && longer[|entries|] == WireEntry(after, cell);
    forall x | x in after && after[x] > 0
      ensures WireEntry(after, x) in longer
    {
      if x != cell {
        assert WireEntry(before, x) in entries;
      }
    }
  }

  lemma SnapshotSkips(field: Field, todo: set<Cell>, cell: Cell, entries: seq<(string, Reading)>)
    requires cell in todo && cell in field && field[cell] <= 0
    requires IsSnapshot(field - todo, entries)
    ensures IsSnapshot(field - (todo - {cell}), entries)
  {
    hide Wire.FormatCell;
    var before, after := field - todo, field - (todo - {cell});
    assert forall x :: x in after <==> x in before || x == cell;
    assert forall x :: x in before ==> WireEntry(before, x) == WireEntry(after, x);
    forall i | 0 <= i < |entries|
      ensures LiveEntry(after, entries[i])
    {
      var x :| x in before && before[x] > 0 && entries[i] == WireEntry(before, x);
      assert x in after && entries[i] == WireEntry(after, x);
    }
    forall x | x in after && after[x] > 0
      ensures WireEntry(after, x) in entries
    {
      assert x in before && before[x] > 0;
      assert WireEntry(before, x) in entries;
    }
  }
}

/** The belief object: nested loops over its list of rows, each proved to apply one belief update. */
module BeliefGrids {
  import opened Board
  import opened Grids
  import opened Belief
  import opened Diffusion
  import Wire

  class BeliefGrid {
    const size: nat
    const smellTrust: real
    const smellPower: Raising
    const leak: real
    var probabilities: Grid

    constructor (boardSize: nat, trust: real, power: Raising, leak: real)
      requires boardSize >= 1
      ensures Valid() && size == boardSize && smellTrust == trust && smellPower == power && this.leak == leak
      ensures probabilities == Uniform(size)
    {
      size, smellTrust, smellPower, this.leak := boardSize, trust, power, leak;
      probabilities := Uniform(boardSize);
    }

    ghost predicate Valid()
      reads this
    {
      size >= 1 && Square(probabilities, size)
    }

    method NormalizeInPlace()
      requires Valid()
      modifies this
      ensures Valid() && probabilities == Normalize(old(probabilities), size)
    {
      probabilities := Normalize(probabilities, size);
    }

    method LeakTowardUniform()
      requires Valid()
      modifies this
      ensures Valid() && probabilities == Leak(old(probabilities), size, leak)
    {
      probabilities := Leak(probabilities, size, leak);
    }

    /** Predict one Police turn: scatter each cell's mass over staying put and the legal orthogonal steps. */
    method DiffuseInPlace()
      requires Valid()
      modifies this
      ensures Valid() && probabilities == Diffuse(old(probabilities), size)
    {
      hide SpreadBefore, Shares, Spread, Normalize;
      var partial := Tabulate(size, (r: int, c: int) => 0.0);
      ghost var send := Shares(probabilities, size);
      SharesOnBoard(probabilities, size);
      ScanStart(send, size);
      var row := 0;
      while row < size
        invariant 0 <= row <= size && partial == SpreadBefore(send, size, row, 0)
        invariant probabilities == old(probabilities)
      {
        var column := 0;
        while column < size
          invariant 0 <= column <= size && partial == SpreadBefore(send, size, row, column)
          invariant probabilities == old(probabilities)
        {
          partial := ScatterFrom(row, column, partial);
          column := column + 1;
        }
        NextRow(send, size, row);
        row := row + 1;
      }
      ScatterIsGather(probabilities, size);
      probabilities := partial;
      NormalizeInPlace();
    }

    /** The body of the scan: one source adds its share to every cell it reaches. */
    method ScatterFrom(row: nat, column: nat, partial0: Grid) returns (partial: Grid)
      requires Valid() && row < size && column < size
      requires partial0 == SpreadBefore(Shares(probabilities, size), size, row, column)
      ensures partial == SpreadBefore(Shares(probabilities, size), size, row, column + 1)
    {
      hide SpreadBefore, Reach;
      partial := partial0;
      ScanStep(Shares(probabilities, size), size, row, column);
      var mass := probabilities[row][column];
      var targets := Reach((row, column), size);
      if mass < EPSILON {
        AddNothing(partial0, size, targets);
        return;
      }
      var share := mass / |targets| as real;
      for i := 0 to |targets|
        invariant partial == AddShares(partial0, size, targets[..i], share)
      {
        var (targetRow, targetColumn) := targets[i];
        assert targets[..i + 1][..i] == targets[..i];
        partial := Put(partial, targetRow, targetColumn, partial[targetRow][targetColumn] + share);
      }
      assert targets[..|targets|] == targets;
    }

    /** Sharpen by the received scent relative to its own peak, normalise, then leak. */
    method ObserveSmellInPlace(entries: seq<(string, Reading)>)
      requires Valid()
      modifies this
      ensures Valid() && probabilities == ObserveSmell(old(probabilities), size, entries, smellTrust, smellPower, leak)
    {
      var parsed: map<Cell, real> := map[];
      for i := 0 to |entries|
        invariant parsed == ParseReadings(entries[..i], size)
        invariant probabilities == old(probabilities)
      {
        var (key, value) := entries[i];
        assert entries[..i + 1][..i] == entries[..i];
        var cell := Wire.ParseCell(key, size);
        if cell.Some? && value.Number? {
          parsed := parsed[cell.value := Clamp(value.intensity)];
        }
      }
      assert entries[..|entries|] == entries;
      ParsedInBounds(entries, size);
      var peak := FindPeak(parsed);
      PeakUnique(parsed, peak, Peak(parsed));
      SharpenInPlace(parsed, peak);
      NormalizeInPlace();
      LeakTowardUniform();
    }

    method SharpenInPlace(parsed: map<Cell, real>, peak: real)
      requires Valid() && forall cell :: cell in parsed ==> InBounds(cell, size)
      modifies this
      ensures Valid() && probabilities == Sharpen(old(probabilities), size, parsed, peak, smellTrust, smellPower)
      ensures SharpenedBy(old(probabilities), probabilities, size, parsed, peak, smellTrust, smellPower)
    {
      hide Sharpen, Boost, SharpenedBy;
      ghost var was := probabilities;
      ghost var sharp := Sharpen(probabilities, size, parsed, peak, smellTrust, smellPower);
      SharpenAt(was, size, parsed, peak, smellTrust, smellPower);
      if peak > 0.0 {
        var todo := parsed.Keys;
        while todo != {}
          invariant todo <= parsed.Keys && Square(probabilities, size)
          invariant forall r, c :: 0 <= r < size && 0 <= c < size ==>
                      probabilities[r][c] == if (r, c) in todo then was[r][c] else sharp[r][c]
          decreases todo
        {
          var cell :| cell in todo;
          var boost := Boost(smellTrust, smellPower, parsed[cell] / peak);
          probabilities := Put(probabilities, cell.0, cell.1, probabilities[cell.0][cell.1] * boost);
          todo := todo - {cell};
        }
      }
      SameCellsEqual(probabilities, sharp, size);
      SharpenWritten(was, size, parsed, peak, smellTrust, smellPower);
    }

    /** Apply soft evidence from a verbal hint and renormalise. */
    method ObserveLikelihoodsInPlace(evidence: map<Cell, real>)
      requires Valid()
      modifies this
      ensures Valid() && probabilities == ObserveLikelihoods(old(probabilities), size, evidence)
    {
      ghost var was := probabilities;
      var todo := evidence.Keys;
      while todo != {}
        invariant todo <= evidence.Keys && Square(probabilities, size)
        invariant forall r, c :: 0 <= r < size && 0 <= c < size ==>
                    probabilities[r][c] == if (r, c) in evidence.Keys - todo
                      then was[r][c] * Likelihood(evidence, (r, c)) else was[r][c]
        decreases todo
      {
        var cell :| cell in todo;
        if InBounds(cell, size) {
          var factor := if evidence[cell] < EPSILON then EPSILON else evidence[cell];
          probabilities := Put(probabilities, cell.0, cell.1, probabilities[cell.0][cell.1] * factor);
        }
        todo := todo - {cell};
      }
      SameCellsEqual(probabilities, Weigh(was, size, evidence), size);
      NormalizeInPlace();
    }

    /** Rule out a cell. */
    method ExcludeInPlace(cell: Cell)
      requires Valid()
      modifies this
      ensures Valid() && probabilities == Exclude(old(probabilities), size, cell)
    {
      if InBounds(cell, size) {
        probabilities := Put(probabilities, cell.0, cell.1, 0.0);
        NormalizeInPlace();
      }
    }

    /** The row-major first cell of highest probability. */
    method MostLikelyCell() returns (best: Cell)
      requires Valid()
      ensures best == MostLikely(probabilities, size)
    {
      best := (0, 0);
      var bestProbability := -1.0;
      var row := 0;
      while row < size
        invariant 0 <= row <= size && (best, bestProbability) == BestBefore(probabilities, size, row, 0)
      {
        var column := 0;
        while column < size
          invariant 0 <= column <= size && (best, bestProbability) == BestBefore(probabilities, size, row, column)
        {
          var probability := probabilities[row][column];
          if probability > bestProbability {
            best, bestProbability := (row, column), probability;
          }
          column := column + 1;
        }
        row := row + 1;
      }
    }
  }

  lemma AddNothing(g: Grid, n: nat, targets: seq<Cell>)
    requires Square(g, n) && AllInBounds(targets, n)
    ensures AddShares(g, n, targets, 0.0) == g
  {
    if targets != [] {
      AddNothing(g, n, targets[..|targets| - 1]);
      var t := targets[|targets| - 1];
      SameCellsEqual(Put(g, t.0, t.1, g[t.0][t.1] + 0.0), g, n);
    }
  }

  /** Scented cells are multiplied by their boost; when nothing was smelled no cell changes. */
  lemma SharpenAt(g: Grid, n: nat, readings: map<Cell, real>, peak: real, trust: real, power: Raising)
    requires Square(g, n)
    ensures forall r, c :: 0 <= r < n && 0 <= c < n ==>
              Sharpen(g, n, readings, peak, trust, power)[r][c]
              == if peak > 0.0 && (r, c) in readings then g[r][c] * Boost(trust, power, readings[(r, c)] / peak)
              else g[r][c]
  {
    hide Boost;
  }

  /** Each scented cell is multiplied by one plus the trusted power of its reading relative to the peak. */
  ghost predicate SharpenedBy(g: Grid, h: Grid, n: nat, readings: map<Cell, real>, peak: real, trust: real,
                              power: Raising)
    requires Square(g, n) && Square(h, n)
  {
    forall r, c :: 0 <= r < n && 0 <= c < n ==>
      h[r][c] == if peak > 0.0 && (r, c) in readings
                 then g[r][c] * (1.0 + trust * power(readings[(r, c)] / peak)) else g[r][c]
  }

  lemma SharpenWritten(g: Grid, n: nat, readings: map<Cell, real>, peak: real, trust: real, power: Raising)
    requires Square(g, n)
    ensures SharpenedBy(g, Sharpen(g, n, readings, peak, trust, power), n, readings, peak, trust, power)
  {
  }

  lemma {:induction false} ParsedInBounds(entries: seq<(string, Reading)>, n: nat)
    ensures forall cell :: cell in ParseReadings(entries, n) ==>
              InBounds(cell, n) && 0.0 <= ParseReadings(entries, n)[cell] <= 1.0
  {
    if entries != [] {
      ParsedInBounds(entries[..|entries| - 1], n);
    }
  }

  lemma PeakUnique(readings: map<Cell, real>, a: real, b: real)
    requires IsPeak(readings, a) && IsPeak(readings, b)
    ensures a == b
  {
  }

  /** The strongest reading, or zero when there is none. */
  method FindPeak(parsed: map<Cell, real>) returns (peak: real)
    requires forall cell :: cell in parsed ==> 0.0 <= parsed[cell]
    ensures IsPeak(parsed, peak)
  {
    peak := 0.0;
    var todo := parsed.Keys;
    while todo != {}
      invariant todo <= parsed.Keys && 0.0 <= peak
      invariant forall cell :: cell in parsed.Keys - todo ==> parsed[cell] <= peak
      invariant peak == 0.0 || exists cell :: cell in parsed.Keys - todo && parsed[cell] == peak
      decreases todo
    {
      var cell :| cell in todo;
      if parsed[cell] > peak {
        peak := parsed[cell];
      }
      todo := todo - {cell};
    }
    if parsed != map[] && peak == 0.0 {
      var cell :| cell in parsed.Keys;
      assert parsed[cell] == peak;
    }
  }
}

/** What the series result means, and why two peers that score the same sub-games derive the same one. */
module ScoringFacts {
  import opened Board
  import opened Scoring

  // ----- a row is what it contains, not how it is ordered -----

  ghost predicate SameEntries<V(!new)>(r: Dict<V>, s: Dict<V>) {
    forall e :: e in r <==> e in s
  }

  lemma UniquePrefix<V>(row: Dict<V>)
    requires UniqueKeys(row) && row != []
    ensures UniqueKeys(row[..|row| - 1]) && !HasKey(row[..|row| - 1], row[|row| - 1].0)
  {
  }

  lemma LastOrEarlier<V>(row: Dict<V>, e: (string, V))
    requires row != []
    ensures e in row <==> e in row[..|row| - 1] || e == row[|row| - 1]
  {
    assert row == row[..|row| - 1] + [row[|row| - 1]];
  }

  lemma {:induction false} GetExact(row: Dict<int>, key: string)
    requires UniqueKeys(row)
    ensures HasKey(row, key) ==> (key, Get(row, key)) in row
    ensures !HasKey(row, key) ==> Get(row, key) == 0
    ensures forall v :: (key, v) in row ==> v == Get(row, key)
  {
    if row != [] {
      UniquePrefix(row);
      GetExact(row[..|row| - 1], key);
    }
  }

  lemma {:induction false} BestExact(row: Dict<int>)
    requires row != []
    ensures (exists g :: (g, Best(row)) in row) && forall e :: e in row ==> e.1 <= Best(row)
  {
    if |row| > 1 {
      var shorter := row[..|row| - 1];
      BestExact(shorter);
      var g :| (g, Best(shorter)) in shorter;
      assert (g, Best(shorter)) in row && row[|row| - 1] in row;
      forall e | e in row
        ensures e.1 <= Best(row)
      {
        LastOrEarlier(row, e);
      }
    } else {
      assert row[0] in row && row[0] == (row[0].0, Best(row));
    }
  }

  lemma {:induction false} WinnersExact(row: Dict<int>, best: int)
    requires UniqueKeys(row)
    ensures forall g :: g in Winners(row, best) <==> (g, best) in row
    ensures forall i, j :: 0 <= i < j < |Winners(row, best)| ==> Winners(row, best)[i] != Winners(row, best)[j]
  {
    if row != [] {
      var shorter, last := row[..|row| - 1], row[|row| - 1];
      UniquePrefix(row);
      WinnersExact(shorter, best);
      forall g
        ensures g in Winners(row, best) <==> (g, best) in row
      {
        LastOrEarlier(row, (g, best));
      }
      WinnersAreKeys(shorter, best);
    }
  }

  /** A group wins a sub-game alone exactly when it has the best score and nobody else has it. */
  lemma SoleWinnerExact(row: Dict<int>, group: string)
    requires UniqueKeys(row) && row != []
    ensures SoleWinner(row) == Some(group) <==>
            (group, Best(row)) in row && forall g :: (g, Best(row)) in row ==> g == group
  {
    hide Best, Winners;
    var winners := Winners(row, Best(row));
    WinnersExact(row, Best(row));
    if |winners| == 1 {
      assert winners[0] in winners;
    } else if |winners| > 1 {
      assert winners[0] in winners && winners[1] in winners && winners[0] != winners[1];
    }
  }

  lemma SameBest(r: Dict<int>, s: Dict<int>)
    requires r != [] && s != [] && SameEntries(r, s)
    ensures Best(r) == Best(s)
  {
    BestExact(r);
    BestExact(s);
  }

  lemma SameEmpty(r: Dict<int>, s: Dict<int>)
    requires SameEntries(r, s)
    ensures r == [] <==> s == []
  {
    if r != [] {
      assert r[0] in r;
    }
    if s != [] {
      assert s[0] in s;
    }
  }

  lemma SameSoleWinner(r: Dict<int>, s: Dict<int>)
    requires UniqueKeys(r) && UniqueKeys(s) && SameEntries(r, s)
    ensures SoleWinner(r) == SoleWinner(s)
  {
    hide SoleWinner, UniqueKeys, Best;
    SameEmpty(r, s);
    if r != [] {
      SameBest(r, s);
      if SoleWinner(r).Some? {
        SoleWinnerExact(r, SoleWinner(r).value);
        SoleWinnerExact(s, SoleWinner(r).value);
      } else if SoleWinner(s).Some? {
        SoleWinnerExact(r, SoleWinner(s).value);
        SoleWinnerExact(s, SoleWinner(s).value);
      }
    }
  }

  lemma KeyHasValue(row: Dict<int>, key: string) returns (v: int)
    requires HasKey(row, key)
    ensures (key, v) in row
  {
    var i :| 0 <= i < |row| && row[i].0 == key;
    v := row[i].1;
    assert row[i] == (key, v);
  }

  lemma ValueHasKey<V>(row: Dict<V>, key: string, v: V)
    requires (key, v) in row
    ensures HasKey(row, key)
  {
  }

  lemma SameKeys(r: Dict<int>, s: Dict<int>, key: string)
    requires SameEntries(r, s)
    ensures HasKey(r, key) <==> HasKey(s, key)
  {
    if HasKey(r, key) {
      var v := KeyHasValue(r, key);
      ValueHasKey(s, key, v);
    }
    if HasKey(s, key) {
      var v := KeyHasValue(s, key);
      ValueHasKey(r, key, v);
    }
  }

  lemma SameGet(r: Dict<int>, s: Dict<int>, key: string)
    requires UniqueKeys(r) && UniqueKeys(s) && SameEntries(r, s)
    ensures Get(r, key) == Get(s, key)
  {
    hide Get, HasKey, UniqueKeys;
    GetExact(r, key);
    GetExact(s, key);
    SameKeys(r, s, key);
  }

  /** Row by row the same entries, in whatever order. */
  ghost predicate SameRows(a: seq<Dict<int>>, b: seq<Dict<int>>) {
    |a| == |b| && forall i :: 0 <= i < |a| ==> UniqueKeys(a[i]) && UniqueKeys(b[i]) && SameEntries(a[i], b[i])
  }

  lemma {:induction false} SameCounts(a: seq<Dict<int>>, b: seq<Dict<int>>, group: string)
    requires SameRows(a, b)
    ensures Points(a, group) == Points(b, group) && Wins(a, group) == Wins(b, group) && Ties(a) == Ties(b)
    decreases |a|
  {
    hide Get, SoleWinner, UniqueKeys, SameEntries;
    if a != [] {
      var k := |a| - 1;
      SameCounts(a[..k], b[..k], group);
      SameGet(a[k], b[k], group);
      SameSoleWinner(a[k], b[k]);
      SameEmpty(a[k], b[k]);
    }
  }

  /** A strictly sorted list is determined by its members. */
  lemma {:induction false} OrderedUnique(a: seq<string>, b: seq<string>)
    requires Ordered(a) && Ordered(b) && forall g :: g in a <==> g in b
    ensures a == b
  {
    assert (a != [] ==> a[0] in a) && (b != [] ==> b[0] in b);
    if a != [] && b != [] {
      HeadFirst(a);
      HeadFirst(b);
      assert a == [a[0]] + a[1..] && b == [b[0]] + b[1..];
      BeforeTotal(a[0], b[0]);
      forall g
        ensures g in a[1..] <==> g in b[1..]
      {
        assert g in a <==> g == a[0] || g in a[1..];
        assert g in b <==> g == b[0] || g in b[1..];
        BeforeTotal(a[0], g);
      }
      OrderedUnique(a[1..], b[1..]);
    }
  }

  lemma SameGroups(a: seq<Dict<int>>, b: seq<Dict<int>>)
    requires SameRows(a, b)
    ensures Groups(a) == Groups(b)
  {
    hide Ordered, HasKey, UniqueKeys, SameEntries, Groups;
    GroupsExact(a);
    GroupsExact(b);
    forall g
      ensures Named(a, g) <==> Named(b, g)
    {
      forall k | 0 <= k < |a|
        ensures HasKey(a[k], g) <==> HasKey(b[k], g)
      {
        SameKeys(a[k], b[k], g);
      }
    }
    OrderedUnique(Groups(a), Groups(b));
  }

  /** The series result does not depend on the order of the groups inside any row. */
  lemma OrderInRowsIrrelevant(a: seq<Dict<int>>, b: seq<Dict<int>>, tieScore: int)
    requires SameRows(a, b)
    ensures Aggregated(a, tieScore) == Aggregated(b, tieScore)
  {
    hide Groups, Points, Wins, Ties, SameRows, FirstBest;
    SameGroups(a, b);
    forall g
      ensures Points(a, g) == Points(b, g) && Wins(a, g) == Wins(b, g) && Ties(a) == Ties(b)
    {
      SameCounts(a, b, g);
    }
    SameCounts(a, b, "");
    assert Aggregated(a, tieScore).won == Aggregated(b, tieScore).won;
    assert Aggregated(a, tieScore).total == Aggregated(b, tieScore).total;
  }

  // ----- the two peers' rows -----

  function OtherRole(role: string): string {
    if role == "police" then "thief" else "police"
  }

  /** Each peer lists itself first and takes the opposite role of the other. */
  lemma RolesSwap(one: string, two: string, role: string)
    requires role == "police" || role == "thief"
    ensures one != two ==> Roles(one, two, role) == [(one, role), (two, OtherRole(role))] &&
                           Roles(two, one, OtherRole(role)) == [(two, OtherRole(role)), (one, role)]
    ensures one == two ==> Roles(one, two, role) == [(one, OtherRole(role))] &&
                           Roles(two, one, OtherRole(role)) == [(one, role)]
  {
    PutSecond(one, role, two, OtherRole(role));
    PutSecond(two, OtherRole(role), one, role);
  }

  lemma PutSecond(key: string, value: string, other: string, next: string)
    ensures Put(Put([], key, value), other, next)
         == if key == other then [(other, next)] else [(key, value), (other, next)]
  {
    assert Put([], key, value) == [(key, value)];
    assert [(key, value)][1..] == [];
    assert Put([], other, next) == [(other, next)];
  }

  /** Both roles of an outcome are worth the same, or its points are missing from the table on both sides. */
  predicate LevelTable(result: string, table: Table) {
    if result == "capture" then LevelPair("capture_cop", "capture_thief", table)
    else if result == "survival" then LevelPair("survival_cop", "survival_thief", table)
    else true
  }

  predicate LevelPair(cop: string, thief: string, table: Table) {
    (cop !in table && thief !in table) || (cop in table && thief in table && table[cop] == table[thief])
  }

  ghost predicate SameScore(a: Option<Dict<int>>, b: Option<Dict<int>>) {
    match (a, b)
    case (None, None) => true
    case (Some(r), Some(s)) => UniqueKeys(r) && UniqueKeys(s) && SameEntries(r, s)
    case _ => false
  }

  lemma PairSwapped<V(!new)>(e: (string, V), f: (string, V))
    requires e.0 != f.0
    ensures UniqueKeys([e, f]) && UniqueKeys([f, e]) && SameEntries([e, f], [f, e])
  {
  }

  /**
   * The two peers score a sub-game alike exactly when their group names differ or the table is level for the outcome.
   */
  lemma PeersScoreAlikeIff(result: string, one: string, two: string, role: string, table: Table)
    requires role == "police" || role == "thief"
    ensures SameScore(ScoreSubgame(result, Roles(one, two, role), table),
                      ScoreSubgame(result, Roles(two, one, OtherRole(role)), table))
            <==> one != two || LevelTable(result, table)
  {
    hide Roles, UniqueKeys, SameEntries;
    RolesSwap(one, two, role);
    var mine, yours := Roles(one, two, role), Roles(two, one, OtherRole(role));
    assert mine[0].1 == (if one == two then OtherRole(role) else role) &&
           yours[0].1 == (if one == two then role else OtherRole(role));
    assert one != two ==> mine[1] == yours[0] && yours[1] == mine[0];
    var a, b := ScoreSubgame(result, mine, table), ScoreSubgame(result, yours, table);
    if a.Some? && b.Some? {
      if one != two {
        PairSwapped(a.value[0], a.value[1]);
        assert a.value == [a.value[0], a.value[1]] && b.value == [a.value[1], a.value[0]];
      } else {
        SingleEntries(a.value, b.value);
      }
    }
  }

  lemma SingleEntries(r: Dict<int>, s: Dict<int>)
    requires |r| == |s| == 1
    ensures UniqueKeys(r) && UniqueKeys(s) && (SameEntries(r, s) <==> r[0] == s[0])
  {
    assert r[0] in r && forall e :: e in s ==> e == s[0];
  }

  /** The first peer's entry before the second's; the points of the police side go to whoever played it. */
  predicate Paid(score: Option<Dict<int>>, one: string, two: string, role: string, cop: string, thief: string,
                 table: Table)
  {
    if cop !in table || thief !in table then score == None
    else if role == "police" then score == Some([(one, table[cop]), (two, table[thief])])
    else score == Some([(one, table[thief]), (two, table[cop])])
  }

  /** Each side earns the points of its role for a capture or a survival; any other outcome pays both the same. */
  lemma ScoreByRole(result: string, one: string, two: string, role: string, table: Table)
    requires one != two && (role == "police" || role == "thief")
    ensures var score := ScoreSubgame(result, Roles(one, two, role), table);
            if result == "capture" then Paid(score, one, two, role, "capture_cop", "capture_thief", table)
            else if result == "survival" then Paid(score, one, two, role, "survival_cop", "survival_thief", table)
            else
              var points := if "technical_loss" in table then table["technical_loss"] else 0;
              score == Some([(one, points), (two, points)])
  {
    hide Roles;
    assert |"police"| != |"thief"|;
    RolesSwap(one, two, role);
    var roles := Roles(one, two, role);
    assert |roles| == 2 && roles[0] == (one, role) && roles[1] == (two, OtherRole(role));
    var score := ScoreSubgame(result, roles, table);
    assert score.Some? ==> score.value == [score.value[0], score.value[1]];
  }

  /** The first group that played the winning role. */
  function WinnerOf(roles: Dict<string>, winner: string): Option<string> {
    if roles == [] then None
    else if roles[0].1 == winner then Some(roles[0].0)
    else WinnerOf(roles[1..], winner)
  }

  /** Both peers name the same winning group, whatever role is declared to have won. */
  lemma PeersNameSameWinner(one: string, two: string, role: string, winner: string)
    requires one != two && (role == "police" || role == "thief")
    ensures WinnerOf(Roles(one, two, role), winner) == WinnerOf(Roles(two, one, OtherRole(role)), winner)
  {
    hide Roles, WinnerOf;
    RolesSwap(one, two, role);
    var other := OtherRole(role);
    assert role != other by { assert |"police"| != |"thief"|; }
    assert Roles(one, two, role) == [(one, role), (two, other)] &&
           Roles(two, one, other) == [(two, other), (one, role)];
    TwoRoles((one, role), (two, other), winner);
    TwoRoles((two, other), (one, role), winner);
  }

  lemma TwoRoles(a: (string, string), b: (string, string), winner: string)
    ensures WinnerOf([a, b], winner) == if a.1 == winner then Some(a.0) else if b.1 == winner then Some(b.0) else None
  {
    assert [b][1..] == [];
    assert WinnerOf([b], winner) == if b.1 == winner then Some(b.0) else None;
    assert [a, b][1..] == [b];
  }

  /** One agreed sub-game: its outcome and the role of the first peer. */
  datatype SubGame = SubGame(result: string, role: string)

  /** The rows one peer writes for a series; None when the table lacks a needed key. */
  function RowsOf(own: string, opponent: string, games: seq<SubGame>, table: Table): Option<seq<Dict<int>>> {
    if games == [] then Some([])
    else
      var last := games[|games| - 1];
      var rows := RowsOf(own, opponent, games[..|games| - 1], table);
      var row := ScoreSubgame(last.result, Roles(own, opponent, last.role), table);
      if rows.Some? && row.Some? then Some(rows.value + [row.value]) else None
  }

  function Mirrored(games: seq<SubGame>): seq<SubGame> {
    if games == [] then []
    else Mirrored(games[..|games| - 1]) + [games[|games| - 1].(role := OtherRole(games[|games| - 1].role))]
  }

  ghost predicate Played(games: seq<SubGame>) {
    forall i :: 0 <= i < |games| ==> games[i].role == "police" || games[i].role == "thief"
  }

  lemma {:induction false} PeersRowsAgree(one: string, two: string, games: seq<SubGame>, table: Table)
    requires one != two && Played(games)
    ensures var a, b := RowsOf(one, two, games, table), RowsOf(two, one, Mirrored(games), table);
            (a.Some? <==> b.Some?) && (a.Some? ==> SameRows(a.value, b.value))
    decreases |games|
  {
    hide ScoreSubgame, Roles, UniqueKeys, SameEntries;
    if games != [] {
      var k := |games| - 1;
      PeersRowsAgree(one, two, games[..k], table);
      PeersScoreAlikeIff(games[k].result, one, two, games[k].role, table);
      assert Mirrored(games)[..k] == Mirrored(games[..k]) by { MirroredLength(games[..k]); }
      MirroredLength(games);
    }
  }

  lemma {:induction false} MirroredLength(games: seq<SubGame>)
    ensures |Mirrored(games)| == |games|
  {
    if games != [] {
      MirroredLength(games[..|games| - 1]);
    }
  }

  /** Peers with distinct names and complementary roles derive the same series result from the same outcomes. */
  lemma PeersDeriveSameSeries(one: string, two: string, games: seq<SubGame>, table: Table, tieScore: int)
    requires one != two && Played(games)
    ensures var a, b := RowsOf(one, two, games, table), RowsOf(two, one, Mirrored(games), table);
            (a.Some? <==> b.Some?) && (a.Some? ==> Aggregated(a.value, tieScore) == Aggregated(b.value, tieScore))
  {
    hide RowsOf, Mirrored, SameRows, Aggregated;
    PeersRowsAgree(one, two, games, table);
    var a, b := RowsOf(one, two, games, table), RowsOf(two, one, Mirrored(games), table);
    if a.Some? {
      OrderInRowsIrrelevant(a.value, b.value, tieScore);
    }
  }

  // ----- every entry of the series -----

  /** The group won this row: its score is above that of every other group. */
  ghost predicate WonAlone(row: Dict<int>, group: string) {
    exists v :: (group, v) in row && forall e :: e in row && e != (group, v) ==> e.1 < v
  }

  lemma SoleWinnerIsAlone(row: Dict<int>, group: string)
    requires UniqueKeys(row)
    ensures SoleWinner(row) == Some(group) <==> WonAlone(row, group)
  {
    hide SoleWinner;
    if row == [] {
      NobodyWins(row);
    } else {
      SoleWinnerExact(row, group);
      BestExact(row);
      var g :| (g, Best(row)) in row;
      hide Best, UniqueKeys;
      if (group, Best(row)) in row && forall g :: (g, Best(row)) in row ==> g == group {
        forall e | e in row && e != (group, Best(row))
          ensures e.1 < Best(row)
        {
          assert e == (e.0, e.1);
        }
      }
    }
  }

  lemma NobodyWins(row: Dict<int>)
    requires row == []
    ensures SoleWinner(row) == None
  {
  }

  /** The rows, by number, in which this holds. */
  ghost function Rows(k: nat, holds: nat -> bool): set<nat> {
    set i: nat | i < k && holds(i)
  }

  lemma RowsGrow(k: nat, holds: nat -> bool)
    ensures |Rows(k + 1, holds)| == |Rows(k, holds)| + if holds(k) then 1 else 0
  {
    assert Rows(k + 1, holds) == Rows(k, holds) + if holds(k) then {k} else {};
  }

  lemma {:induction false} WinsCount(rows: seq<Dict<int>>, group: string, holds: nat -> bool)
    requires AllUnique(rows) && forall i: nat :: i < |rows| ==> holds(i) == WonAlone(rows[i], group)
    ensures Wins(rows, group) == |Rows(|rows|, holds)|
  {
    hide Rows, SoleWinner, UniqueKeys, WonAlone;
    if rows == [] {
      NoRows(holds);
    } else {
      var k := |rows| - 1;
      WinsCount(rows[..k], group, holds);
      RowsGrow(k, holds);
      SoleWinnerIsAlone(rows[k], group);
    }
  }

  lemma NoRows(holds: nat -> bool)
    ensures Rows(0, holds) == {}
  {
  }

  /** One more row adds what it holds for the group, or nothing. */
  lemma PointsGrow(rows: seq<Dict<int>>, row: Dict<int>, group: string)
    requires UniqueKeys(row)
    ensures Points([], group) == 0
    ensures forall v :: (group, v) in row ==> Points(rows + [row], group) == Points(rows, group) + v
    ensures !HasKey(row, group) ==> Points(rows + [row], group) == Points(rows, group)
  {
    hide Get, HasKey, UniqueKeys;
    assert (rows + [row])[..|rows|] == rows;
    GetExact(row, group);
  }

  /**
   * Entry by entry: every group of the series, in text order, has all its points, raised by the bonus on a level
   * series, and as many wins as there are rows it won alone.
   */
  lemma EntriesExact(rows: seq<Dict<int>>, tieScore: int, i: nat, holds: nat -> bool)
    requires AllUnique(rows) && i < |Groups(rows)|
    requires forall k: nat :: k < |rows| ==> holds(k) == WonAlone(rows[k], Groups(rows)[i])
    ensures var series, group := Aggregated(rows, tieScore), Groups(rows)[i];
            |series.total| == |series.won| == |Groups(rows)| &&
            series.total[i] == (group, Points(rows, group) + if series.tie then tieScore else 0) &&
            series.won[i] == (group, |Rows(|rows|, holds)|)
  {
    hide Groups, Points, Wins, Ties, FirstBest, Rows, WonAlone;
    WinsCount(rows, Groups(rows)[i], holds);
  }

  // ----- totals -----

  function Sum(d: Dict<int>): int {
    if d == [] then 0 else Sum(d[..|d| - 1]) + d[|d| - 1].1
  }

  function AllPoints(rows: seq<Dict<int>>): int {
    if rows == [] then 0 else AllPoints(rows[..|rows| - 1]) + Sum(rows[|rows| - 1])
  }

  function NonEmpty(rows: seq<Dict<int>>): nat {
    if rows == [] then 0 else NonEmpty(rows[..|rows| - 1]) + if rows[|rows| - 1] != [] then 1 else 0
  }

  /** Adding up a count over the groups. */
  function Over(names: seq<string>, count: string -> int): int {
    if names == [] then 0 else Over(names[..|names| - 1], count) + count(names[|names| - 1])
  }

  lemma {:induction false} SumTally(names: seq<string>, count: string -> int)
    ensures Sum(Tally(names, count)) == Over(names, count)
  {
    if names != [] {
      var shorter := names[..|names| - 1];
      SumTally(shorter, count);
      assert Tally(names, count)[..|names| - 1] == Tally(shorter, count);
    }
  }

  lemma {:induction false} OverPlus(names: seq<string>, a: string -> int, b: string -> int, c: string -> int)
    requires forall g :: g in names ==> c(g) == a(g) + b(g)
    ensures Over(names, c) == Over(names, a) + Over(names, b)
  {
    if names != [] {
      OverPlus(names[..|names| - 1], a, b, c);
    }
  }

  lemma {:induction false} OverConstant(names: seq<string>, x: int)
    ensures Over(names, g => x) == |names| * x
  {
    if names != [] {
      OverConstant(names[..|names| - 1], x);
    }
  }

  ghost predicate Distinct(names: seq<string>) {
    forall i, j :: 0 <= i < j < |names| ==> names[i] != names[j]
  }

  /** A count that is x at one listed group and 0 elsewhere adds up to x. */
  lemma {:induction false} OverSingle(names: seq<string>, group: string, x: int, count: string -> int)
    requires Distinct(names) && forall g :: g in names ==> count(g) == if g == group then x else 0
    ensures Over(names, count) == if group in names then x else 0
  {
    if names != [] {
      var shorter := names[..|names| - 1];
      OverSingle(shorter, group, x, count);
      assert names == shorter + [names[|names| - 1]];
    }
  }

  lemma {:induction false} OverAgrees(names: seq<string>, a: string -> int, b: string -> int)
    requires forall g :: g in names ==> a(g) == b(g)
    ensures Over(names, a) == Over(names, b)
  {
    if names != [] {
      OverAgrees(names[..|names| - 1], a, b);
    }
  }

  /** A row's points, added up group by group. */
  lemma {:induction false} RowOverGroups(names: seq<string>, row: Dict<int>)
    requires Distinct(names) && UniqueKeys(row) && forall g :: HasKey(row, g) ==> g in names
    ensures Over(names, g => Get(row, g)) == Sum(row)
  {
    if row == [] {
      OverConstant(names, 0);
      OverAgrees(names, g => Get(row, g), g => 0);
    } else {
      var shorter, last := row[..|row| - 1], row[|row| - 1];
      UniquePrefix(row);
      assert HasKey(row, last.0);
      forall g | HasKey(shorter, g)
        ensures g in names
      {
        var i :| 0 <= i < |shorter| && shorter[i].0 == g;
        assert row[i].0 == g;
      }
      RowOverGroups(names, shorter);
      GetExact(shorter, last.0);
      OverSingle(names, last.0, last.1, g => if g == last.0 then last.1 else 0);
      OverPlus(names, g => Get(shorter, g), g => if g == last.0 then last.1 else 0, g => Get(row, g));
    }
  }

  /** The names cover every row among the first k. */
  ghost predicate Covers(names: seq<string>, rows: seq<Dict<int>>) {
    Distinct(names) && forall i, g :: 0 <= i < |rows| && HasKey(rows[i], g) ==> g in names
  }

  ghost predicate AllUnique(rows: seq<Dict<int>>) {
    forall i :: 0 <= i < |rows| ==> UniqueKeys(rows[i])
  }

  lemma GroupsCover(rows: seq<Dict<int>>)
    ensures Covers(Groups(rows), rows)
  {
    hide HasKey, Groups;
    GroupsExact(rows);
    OrderedDistinct(Groups(rows));
  }

  lemma {:induction false} PointsOverGroups(names: seq<string>, rows: seq<Dict<int>>)
    requires Covers(names, rows) && AllUnique(rows)
    ensures Over(names, g => Points(rows, g)) == AllPoints(rows)
    decreases |rows|
  {
    hide UniqueKeys, HasKey, Get;
    if rows == [] {
      OverConstant(names, 0);
      OverAgrees(names, g => Points(rows, g), g => 0);
    } else {
      var shorter, last := rows[..|rows| - 1], rows[|rows| - 1];
      PointsOverGroups(names, shorter);
      RowOverGroups(names, last);
      OverPlus(names, g => Points(shorter, g), g => Get(last, g), g => Points(rows, g));
    }
  }

  lemma {:induction false} WinsOverGroups(names: seq<string>, rows: seq<Dict<int>>)
    requires Covers(names, rows) && AllUnique(rows)
    ensures Over(names, g => Wins(rows, g)) + Ties(rows) == NonEmpty(rows)
    decreases |rows|
  {
    hide UniqueKeys, HasKey, SoleWinner;
    if rows == [] {
      OverConstant(names, 0);
      OverAgrees(names, g => Wins(rows, g), g => 0);
    } else {
      var shorter, last := rows[..|rows| - 1], rows[|rows| - 1];
      WinsOverGroups(names, shorter);
      var sole := SoleWinner(last);
      var one: string -> int := g => if sole == Some(g) then 1 else 0;
      OverPlus(names, g => Wins(shorter, g), one, g => Wins(rows, g));
      if sole.Some? {
        SoleWinnerNamed(last);
        OverSingle(names, sole.value, 1, one);
      } else {
        OverConstant(names, 0);
        OverAgrees(names, one, g => 0);
        SoleWinnerNamed(last);
      }
    }
  }

  lemma SoleWinnerNamed(row: Dict<int>)
    ensures SoleWinner(row).Some? ==> row != [] && HasKey(row, SoleWinner(row).value)
  {
    if SoleWinner(row).Some? {
      WinnersAreKeys(row, Best(row));
      assert SoleWinner(row).value in Winners(row, Best(row));
    }
  }

  /** Every played sub-game is either won by one group or drawn. */
  lemma EverySubGameCounted(rows: seq<Dict<int>>, tieScore: int)
    requires AllUnique(rows)
    ensures var series := Aggregated(rows, tieScore); Sum(series.won) + series.ties == NonEmpty(rows)
  {
    hide Groups, Wins, Points, AllUnique, Covers, FirstBest;
    GroupsCover(rows);
    WinsOverGroups(Groups(rows), rows);
    SumTally(Groups(rows), g => Wins(rows, g));
  }

  /** No point is lost or made: the totals add up to all points, plus the bonus twice exactly on a level series. */
  lemma PointsConserved(rows: seq<Dict<int>>, tieScore: int)
    requires AllUnique(rows)
    ensures var series := Aggregated(rows, tieScore);
            Sum(series.total) == AllPoints(rows) + if series.tie then 2 * tieScore else 0
  {
    hide Groups, Points, Wins, AllUnique, Covers, FirstBest;
    var groups := Groups(rows);
    GroupsCover(rows);
    PointsOverGroups(groups, rows);
    SumTally(groups, g => Points(rows, g));
    SumTally(groups, g => Points(rows, g) + tieScore);
    OverConstant(groups, tieScore);
    OverPlus(groups, g => Points(rows, g), g => tieScore, g => Points(rows, g) + tieScore);
  }

  /** The entry at i has the highest total, and the first such name in text order. */
  ghost predicate Leads(total: Dict<int>, i: nat) {
    i < |total| && (forall j :: 0 <= j < |total| ==> total[j].1 <= total[i].1) &&
      (forall j :: 0 <= j < i ==> total[j].1 < total[i].1)
  }

  lemma {:induction false} FirstBestExact(d: Dict<int>) returns (i: nat)
    requires d != []
    ensures Leads(d, i) && d[i] == (FirstBest(d), Best(d))
  {
    if |d| == 1 {
      i := 0;
    } else {
      var shorter := d[..|d| - 1];
      i := FirstBestExact(shorter);
      if d[|d| - 1].1 > Best(shorter) {
        i := |d| - 1;
      }
    }
  }

  /**
   * There is no winner exactly on a level two-group series or with no groups; otherwise the first highest total wins.
   */
  lemma WinnerExact(rows: seq<Dict<int>>, tieScore: int)
    ensures var series := Aggregated(rows, tieScore);
            (series.winner.None? <==> series.tie || Groups(rows) == []) &&
            (series.tie <==> |Groups(rows)| == 2 && Points(rows, Groups(rows)[0]) == Points(rows, Groups(rows)[1])) &&
            (series.winner.Some? ==>
             exists i: nat :: Leads(series.total, i) && series.total[i].0 == series.winner.value)
  {
    hide Groups, Points, Wins, FirstBest, Best, Leads;
    var series := Aggregated(rows, tieScore);
    if series.winner.Some? {
      var i := FirstBestExact(series.total);
      assert Leads(series.total, i);
    }
  }
}

/** League scoring over dictionaries that keep their insertion order. */
module Scoring {
  import opened Board

  /** A dictionary with text keys: its entries in insertion order. */
  type Dict<V> = seq<(string, V)>

  ghost predicate UniqueKeys<V>(d: Dict<V>) {
    forall i, j :: 0 <= i < j < |d| ==> d[i].0 != d[j].0
  }

  predicate HasKey<V>(d: Dict<V>, key: string) {
    exists i :: 0 <= i < |d| && d[i].0 == key
  }

  /** Setting a key: an existing one keeps its place. */
  function Put<V>(d: Dict<V>, key: string, value: V): Dict<V> {
    if d == [] then [(key, value)]
    else if d[0].0 == key then [(key, value)] + d[1..]
    else [d[0]] + Put(d[1..], key, value)
  }

  function Get(d: Dict<int>, key: string): int {
    if d == [] then 0 else if d[|d| - 1].0 == key then d[|d| - 1].1 else Get(d[..|d| - 1], key)
  }

  // ----- one sub-game -----

  function Roles(ownGroup: string, opponentGroup: string, ownRole: string): Dict<string> {
    var opponentRole := if ownRole == "police" then "thief" else "police";
    Put(Put([], ownGroup, ownRole), opponentGroup, opponentRole)
  }

  /** The agreed point table, key to points. */
  type Table = map<string, int>

  /** The table keys for the police and the thief side of an outcome; None for a technical loss. */
  function PointKeys(result: string): Option<(string, string)> {
    if result == "capture" then Some(("capture_cop", "capture_thief"))
    else if result == "survival" then Some(("survival_cop", "survival_thief"))
    else None
  }

  function RoleKey(keys: (string, string), role: string): string {
    if role == "police" then keys.0 else keys.1
  }

  /** The points of each group, or None when the table lacks a key that is needed. */
  function ScoreSubgame(result: string, roles: Dict<string>, table: Table): Option<Dict<int>> {
    match PointKeys(result)
    case None =>
      var points := if "technical_loss" in table then table["technical_loss"] else 0;
      Some(seq(|roles|, i requires 0 <= i < |roles| => (roles[i].0, points)))
    case Some(keys) =>
      if forall i :: 0 <= i < |roles| ==> RoleKey(keys, roles[i].1) in table
      then Some(seq(|roles|, i requires 0 <= i < |roles| && RoleKey(keys, roles[i].1) in table =>
                       (roles[i].0, table[RoleKey(keys, roles[i].1)])))
      else None
  }

  // ----- text order -----

  predicate Before(a: string, b: string) {
    b != [] && (a == [] || a[0] < b[0] || (a[0] == b[0] && Before(a[1..], b[1..])))
  }

  ghost predicate Ordered(names: seq<string>) {
    forall i, j :: 0 <= i < j < |names| ==> Before(names[i], names[j])
  }

  lemma {:induction false} BeforeTotal(a: string, b: string)
    ensures !(Before(a, b) && Before(b, a)) && (a == b <==> !Before(a, b) && !Before(b, a))
  {
    if a != [] && b != [] {
      BeforeTotal(a[1..], b[1..]);
      assert a == [a[0]] + a[1..] && b == [b[0]] + b[1..];
    }
  }

  lemma {:induction false} BeforeTransitive(a: string, b: string, c: string)
    requires Before(a, b) && Before(b, c)
    ensures Before(a, c)
  {
    if a != [] && a[0] == b[0] == c[0] {
      BeforeTransitive(a[1..], b[1..], c[1..]);
    }
  }

  /** Adding a name to a sorted set of names. */
  function AddName(names: seq<string>, name: string): seq<string> {
    if names == [] then [name]
    else if names[0] == name then names
    else if Before(name, names[0]) then [name] + names
    else [names[0]] + AddName(names[1..], name)
  }

  lemma {:induction false} AddNameExact(names: seq<string>, name: string)
    requires Ordered(names)
    ensures Ordered(AddName(names, name)) && forall g :: g in AddName(names, name) <==> g in names || g == name
  {
    if names != [] {
      var head, rest := names[0], names[1..];
      assert names == [head] + rest;
      BeforeTotal(head, name);
      AddNameExact(rest, name);
      HeadFirst(names);
      if head != name && Before(name, head) {
        forall g | g in rest
          ensures Before(name, g)
        {
          BeforeTransitive(name, head, g);
        }
        InFront(name, names);
      } else if head != name {
        InFront(head, AddName(rest, name));
      }
    }
  }

  lemma HeadFirst(names: seq<string>)
    requires Ordered(names) && names != []
    ensures Ordered(names[1..]) && forall g :: g in names[1..] ==> Before(names[0], g)
  {
  }

  lemma InFront(name: string, names: seq<string>)
    requires Ordered(names) && forall g :: g in names ==> Before(name, g)
    ensures Ordered([name] + names)
  {
  }

  function AddKeys(names: seq<string>, row: Dict<int>): seq<string> {
    if row == [] then names else AddName(AddKeys(names, row[..|row| - 1]), row[|row| - 1].0)
  }

  /** All groups of all rows, sorted, each once. */
  function Groups(rows: seq<Dict<int>>): seq<string> {
    if rows == [] then [] else AddKeys(Groups(rows[..|rows| - 1]), rows[|rows| - 1])
  }

  predicate Named(rows: seq<Dict<int>>, group: string) {
    exists k :: 0 <= k < |rows| && HasKey(rows[k], group)
  }

  lemma {:induction false} AddKeysExact(names: seq<string>, row: Dict<int>)
    requires Ordered(names)
    ensures Ordered(AddKeys(names, row)) && forall g :: g in AddKeys(names, row) <==> g in names || HasKey(row, g)
  {
    hide Ordered;
    if row != [] {
      var shorter := row[..|row| - 1];
      AddKeysExact(names, shorter);
      AddNameExact(AddKeys(names, shorter), row[|row| - 1].0);
      forall g
        ensures HasKey(row, g) <==> HasKey(shorter, g) || row[|row| - 1].0 == g
      {
        if HasKey(shorter, g) {
          var i :| 0 <= i < |shorter| && shorter[i].0 == g;
          assert row[i].0 == g;
        }
      }
    }
  }

  /** The groups of a series are exactly the names in its rows, strictly sorted. */
  lemma {:induction false} GroupsExact(rows: seq<Dict<int>>)
    ensures Ordered(Groups(rows)) && forall g :: g in Groups(rows) <==> Named(rows, g)
  {
    if rows != [] {
      var shorter := rows[..|rows| - 1];
      GroupsExact(shorter);
      AddKeysExact(Groups(shorter), rows[|rows| - 1]);
      forall g
        ensures Named(rows, g) <==> Named(shorter, g) || HasKey(rows[|rows| - 1], g)
      {
        if Named(shorter, g) {
          var k :| 0 <= k < |shorter| && HasKey(shorter[k], g);
          assert HasKey(rows[k], g);
        }
      }
    }
  }

  lemma OrderedDistinct(names: seq<string>)
    requires Ordered(names)
    ensures forall i, j :: 0 <= i < j < |names| ==> names[i] != names[j]
  {
    forall i, j | 0 <= i < j < |names|
      ensures names[i] != names[j]
    {
      BeforeTotal(names[i], names[j]);
    }
  }

  // ----- one row -----

  function Best(row: Dict<int>): int
    requires row != []
  {
    if |row| == 1 then row[0].1
    else
      var best := Best(row[..|row| - 1]);
      if row[|row| - 1].1 > best then row[|row| - 1].1 else best
  }

  function Winners(row: Dict<int>, best: int): seq<string> {
    if row == [] then []
    else Winners(row[..|row| - 1], best) + if row[|row| - 1].1 == best then [row[|row| - 1].0] else []
  }

  /** The group that won this sub-game alone. */
  function SoleWinner(row: Dict<int>): Option<string> {
    if row == [] then None
    else
      var winners := Winners(row, Best(row));
      if |winners| == 1 then Some(winners[0]) else None
  }

  // ----- the series -----

  function Points(rows: seq<Dict<int>>, group: string): int {
    if rows == [] then 0 else Points(rows[..|rows| - 1], group) + Get(rows[|rows| - 1], group)
  }

  function Wins(rows: seq<Dict<int>>, group: string): nat {
    if rows == [] then 0
    else Wins(rows[..|rows| - 1], group) + if SoleWinner(rows[|rows| - 1]) == Some(group) then 1 else 0
  }

  function Ties(rows: seq<Dict<int>>): nat {
    if rows == [] then 0
    else Ties(rows[..|rows| - 1]) + if rows[|rows| - 1] != [] && SoleWinner(rows[|rows| - 1]).None? then 1 else 0
  }

  function Tally(names: seq<string>, count: string -> int): Dict<int> {
    seq(|names|, i requires 0 <= i < |names| => (names[i], count(names[i])))
  }

  /** The first entry whose value no other exceeds. */
  function FirstBest(d: Dict<int>): string
    requires d != []
  {
    if |d| == 1 then d[0].0
    else if d[|d| - 1].1 > Best(d[..|d| - 1]) then d[|d| - 1].0
    else FirstBest(d[..|d| - 1])
  }

  datatype Series = Series(total: Dict<int>, won: Dict<int>, ties: int, winner: Option<string>, tie: bool)

  function Aggregated(rows: seq<Dict<int>>, tieScore: int): Series {
    var groups := Groups(rows);
    var total := Tally(groups, g => Points(rows, g));
    var tie := |groups| == 2 && total[0].1 == total[1].1;
    var final := if tie then Tally(groups, g => Points(rows, g) + tieScore) else total;
    Series(final, Tally(groups, g => Wins(rows, g)), Ties(rows),
           if tie || final == [] then None else Some(FirstBest(final)), tie)
  }

  lemma {:induction false} WinnersAreKeys(row: Dict<int>, best: int)
    ensures forall g :: g in Winners(row, best) ==> HasKey(row, g)
  {
    if row != [] {
      var shorter := row[..|row| - 1];
      WinnersAreKeys(shorter, best);
      forall g | HasKey(shorter, g)
        ensures HasKey(row, g)
      {
        var i :| 0 <= i < |shorter| && shorter[i].0 == g;
        assert row[i].0 == g;
      }
    }
  }

  lemma RowNames(rows: seq<Dict<int>>, k: nat, group: string)
    requires k < |rows| && HasKey(rows[k], group)
    ensures Named(rows, group)
  {
    hide HasKey;
  }

  /** The one entry whose group won the next row grows by one. */
  ghost predicate Credited(won: Dict<int>, group: string, after: Dict<int>) {
    |after| == |won| &&
    forall i :: 0 <= i < |won| ==> after[i] == (won[i].0, won[i].1 + if won[i].0 == group then 1 else 0)
  }

  /** Adding one to the entry of a group. */
  method Credit(won: Dict<int>, group: string) returns (after: Dict<int>)
    requires HasKey(won, group) && UniqueKeys(won)
    ensures Credited(won, group, after)
  {
    ghost var place :| 0 <= place < |won| && won[place].0 == group;
    var i := 0;
    while won[i].0 != group
      invariant 0 <= i <= place
      decreases place - i
    {
      i := i + 1;
    }
    after := won[i := (group, won[i].1 + 1)];
  }

  lemma TallyHasKey(names: seq<string>, count: string -> int, group: string)
    requires group in names
    ensures HasKey(Tally(names, count), group)
  {
    var i :| 0 <= i < |names| && names[i] == group;
    assert Tally(names, count)[i].0 == group;
  }

  method Aggregate(rows: seq<Dict<int>>, tieScore: int) returns (series: Series)
    ensures series == Aggregated(rows, tieScore)
  {
    hide Groups, Winners, Points, HasKey, Ordered, Named;
    var groups := Groups(rows);
    var total := Tally(groups, g => Points(rows, g));
    var won := Tally(groups, g => 0);
    var ties := 0;
    GroupsExact(rows);
    OrderedDistinct(groups);
    for k := 0 to |rows|
      invariant won == Tally(groups, g => Wins(rows[..k], g)) && ties == Ties(rows[..k])
    {
      assert rows[..k + 1][..k] == rows[..k];
      var row := rows[k];
      if row != [] {
        var winners := Winners(row, Best(row));
        if |winners| == 1 {
          WinnersAreKeys(row, Best(row));
          assert winners[0] in winners;
          RowNames(rows, k, winners[0]);
          TallyHasKey(groups, g => Wins(rows[..k], g), winners[0]);
          won := Credit(won, winners[0]);
        } else {
          ties := ties + 1;
        }
      }
    }
    assert rows[..|rows|] == rows;
    var tie := |groups| == 2 && total[0].1 == total[1].1;
    if tie {
      total := Tally(groups, g => Points(rows, g) + tieScore);
    }
    series := Series(total, won, ties, if tie || total == [] then None else Some(FirstBest(total)), tie);
  }
}

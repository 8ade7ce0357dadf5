/**
 * What the strategy guarantees: best-first order, irrelevance of the area term, and a legal move for any model reply.
 */
module StrategyFacts {
  import opened Board
  import opened Strategy
  import opened Belief
  import FloodFill
  import Wire

  // ----- the first maximum is a maximum -----

  ghost predicate SameLength(moves: seq<Move>, key: Move -> seq<real>, k: nat) {
    forall m :: m in moves ==> |key(m)| == k
  }

  lemma {:induction false} KeyGreaterOrder(a: seq<real>, b: seq<real>, c: seq<real>)
    requires |a| == |b| == |c|
    ensures !KeyGreater(a, a)
    ensures !KeyGreater(b, a) && KeyGreater(b, c) ==> KeyGreater(a, c)
    ensures !KeyGreater(b, a) && !KeyGreater(c, b) ==> !KeyGreater(c, a)
  {
    if a != [] {
      KeyGreaterOrder(a[1..], b[1..], c[1..]);
    }
  }

  /** No move beats the chosen one, and every earlier move is strictly beaten by it. */
  lemma {:induction false} FirstMaxIsMax(moves: seq<Move>, key: Move -> seq<real>, k: nat)
    requires moves != [] && SameLength(moves, key, k)
    ensures forall m :: m in moves ==> !KeyGreater(key(m), key(FirstMax(moves, key)))
    ensures exists i :: 0 <= i < |moves| && moves[i] == FirstMax(moves, key) &&
              forall j :: 0 <= j < i ==> KeyGreater(key(moves[i]), key(moves[j]))
  {
    hide KeyGreater;
    var last := moves[|moves| - 1];
    if |moves| == 1 {
      KeyGreaterOrder(key(last), key(last), key(last));
    } else {
      var front := moves[..|moves| - 1];
      assert moves == front + [last];
      FirstMaxIsMax(front, key, k);
      FirstMaxChosen(front, key);
      var best := FirstMax(front, key);
      forall m | m in moves
        ensures !KeyGreater(key(m), key(FirstMax(moves, key)))
      {
        KeyGreaterOrder(key(last), key(last), key(last));
        KeyGreaterOrder(key(last), key(best), key(m));
        KeyGreaterOrder(key(best), key(last), key(m));
        KeyGreaterOrder(key(m), key(m), key(m));
        BeatenStaysBeaten(key(last), key(best), key(m));
      }
      var i :| 0 <= i < |front| && front[i] == best && forall j :: 0 <= j < i ==>
        KeyGreater(key(front[i]), key(front[j]));
      if FirstMax(moves, key) == best && !KeyGreater(key(last), key(best)) {
        assert moves[i] == best;
      } else {
        forall j | 0 <= j < |front|
          ensures KeyGreater(key(last), key(moves[j]))
        {
          assert moves[j] in front;
          BeatenStaysBeaten(key(last), key(best), key(moves[j]));
        }
        assert moves[|moves| - 1] == last;
      }
    }
  }

  lemma {:induction false} BeatenStaysBeaten(a: seq<real>, b: seq<real>, c: seq<real>)
    requires |a| == |b| == |c|
    ensures KeyGreater(a, b) && !KeyGreater(c, b) ==> KeyGreater(a, c) && !KeyGreater(c, a)
  {
    if a != [] {
      BeatenStaysBeaten(a[1..], b[1..], c[1..]);
    }
  }

  // ----- sorting -----

  ghost predicate BestFirst(cs: seq<Candidate>) {
    forall i, j :: 0 <= i < j < |cs| ==> !Ahead(cs[j], cs[i])
  }

  lemma {:induction false} InsertAdds(c: Candidate, cs: seq<Candidate>)
    ensures multiset(Insert(c, cs)) == multiset(cs) + multiset{c}
  {
    hide Ahead;
    if cs != [] {
      assert cs == cs[..|cs| - 1] + [cs[|cs| - 1]];
      InsertAdds(c, cs[..|cs| - 1]);
    }
  }

  lemma BestFirstAppend(cs: seq<Candidate>, last: Candidate)
    requires BestFirst(cs) && forall x :: x in cs ==> !Ahead(last, x)
    ensures BestFirst(cs + [last])
  {
  }

  lemma {:induction false} InsertKeeps(c: Candidate, cs: seq<Candidate>)
    requires BestFirst(cs)
    ensures BestFirst(Insert(c, cs)) && multiset(Insert(c, cs)) == multiset(cs) + multiset{c}
  {
    hide BestFirst;
    InsertAdds(c, cs);
    if cs != [] {
      var front, last := cs[..|cs| - 1], cs[|cs| - 1];
      assert cs == front + [last];
      BestFirstFront(cs, front, last);
      if Ahead(c, last) {
        InsertKeeps(c, front);
        forall x | x in Insert(c, front)
          ensures !Ahead(last, x)
        {
          assert x in multiset(Insert(c, front));
        }
        BestFirstAppend(Insert(c, front), last);
      } else {
        AllAhead(c, cs);
        BestFirstAppend(cs, c);
      }
    } else {
      SingleBestFirst(c);
    }
  }

  lemma BestFirstFront(cs: seq<Candidate>, front: seq<Candidate>, last: Candidate)
    requires BestFirst(cs) && cs == front + [last]
    ensures BestFirst(front) && forall x :: x in front ==> !Ahead(last, x)
  {
    assert forall i :: 0 <= i < |front| ==> cs[i] == front[i];
    assert cs[|front|] == last;
  }

  lemma SingleBestFirst(c: Candidate)
    ensures BestFirst([c])
  {
  }

  lemma AllAhead(c: Candidate, cs: seq<Candidate>)
    requires BestFirst(cs) && cs != [] && !Ahead(c, cs[|cs| - 1])
    ensures forall x :: x in cs ==> !Ahead(c, x)
  {
    forall x | x in cs
      ensures !Ahead(c, x)
    {
      var i :| 0 <= i < |cs| && cs[i] == x;
      assert i < |cs| - 1 ==> !Ahead(cs[|cs| - 1], cs[i]);
    }
  }

  /** The ranked list is the candidate list, best first. */
  lemma {:induction false} SortIsBestFirst(cs: seq<Candidate>)
    ensures BestFirst(Sort(cs)) && multiset(Sort(cs)) == multiset(cs)
  {
    if cs != [] {
      var front, last := cs[..|cs| - 1], cs[|cs| - 1];
      assert cs == front + [last];
      SortIsBestFirst(front);
      InsertKeeps(last, Sort(front));
    }
  }

  // ----- the area term never matters -----

  /** The same candidates with every utility raised by the same amount. */
  ghost predicate Raised(cs: seq<Candidate>, ds: seq<Candidate>, k: real) {
    |cs| == |ds| && forall i :: 0 <= i < |cs| ==> ds[i] == cs[i].(utility := cs[i].utility + k)
  }

  lemma {:induction false} InsertRaised(c: Candidate, d: Candidate, cs: seq<Candidate>, ds: seq<Candidate>, k: real)
    requires Raised(cs, ds, k) && d == c.(utility := c.utility + k)
    ensures Raised(Insert(c, cs), Insert(d, ds), k)
  {
    if cs != [] {
      InsertRaised(c, d, cs[..|cs| - 1], ds[..|ds| - 1], k);
    }
  }

  lemma {:induction false} SortRaised(cs: seq<Candidate>, ds: seq<Candidate>, k: real)
    requires Raised(cs, ds, k)
    ensures Raised(Sort(cs), Sort(ds), k)
  {
    if cs != [] {
      SortRaised(cs[..|cs| - 1], ds[..|ds| - 1], k);
      InsertRaised(cs[|cs| - 1], ds[|ds| - 1], Sort(cs[..|cs| - 1]), Sort(ds[..|ds| - 1]), k);
    }
  }

  ghost predicate SameOrder(cs: seq<Candidate>, ds: seq<Candidate>) {
    |cs| == |ds| && forall i :: 0 <= i < |cs| ==> ds[i] == cs[i].(utility := ds[i].utility)
  }

  /** From an open cell all targets share one region, so no weight of the reachable area changes the ranking. */
  lemma AreaWeightIrrelevant(view: View, weight: real)
    requires Open(view.position, view.n, view.barriers)
    ensures SameOrder(Ranked(view, 0.0), Ranked(view, weight))
  {
    hide FloodFill.Area, Sort, LegalMoves;
    var moves := view.Moves();
    var area := FloodFill.Area(view.n, view.barriers, view.position);
    var cs, ds := MoveCandidates(view, 0.0, moves), MoveCandidates(view, weight, moves);
    forall i | 0 <= i < |moves|
      ensures ds[i] == cs[i].(utility := cs[i].utility + weight * area as real)
    {
      FloodFill.TargetsShareArea(view.n, view.barriers, view.position, moves[i]);
    }
    if moves != [] {
      SortRaised(cs, ds, weight * area as real);
    }
  }

  lemma TargetDistanceParity(view: View, m: Move)
    requires m in view.Moves()
    ensures (Distance(m.target, view.Threat()) - Distance(view.position, view.Threat())) % 2 == 1
  {
    hide MostLikely, LegalMoves;
    LegalMovesExact(view.n, view.position, view.barriers);
  }

  /**
   * A farther target outranks a nearer one unless it carries more than 0.325 extra belief: distances of targets differ
   * by an even number, and novelty cannot make up for two steps.
   */
  lemma FartherRanksFirst(view: View, weight: real, a: Move, b: Move)
    requires Open(view.position, view.n, view.barriers) && a in view.Moves() && b in view.Moves()
    requires Distance(a.target, view.Threat()) > Distance(b.target, view.Threat())
    requires At(view.belief, a.target) < At(view.belief, b.target) + 0.325
    ensures Utility(view, weight, a.target) > Utility(view, weight, b.target)
  {
    hide FloodFill.Area, MostLikely, LegalMoves, Distance, At;
    TargetDistanceParity(view, a);
    TargetDistanceParity(view, b);
    var far, near := Distance(a.target, view.Threat()), Distance(b.target, view.Threat());
    assert far >= near + 2;
    UtilityParts(view, weight, a);
    UtilityParts(view, weight, b);
    hide Utility;
    GapOutweighs(far as real, near as real, weight * FloodFill.Area(view.n, view.barriers, view.position) as real,
                 Flag(a.target !in view.visited), Flag(b.target !in view.visited), At(view.belief, a.target),
                 At(view.belief, b.target));
  }

  lemma UtilityParts(view: View, weight: real, m: Move)
    requires Open(view.position, view.n, view.barriers) && m in view.Moves()
    ensures Utility(view, weight, m.target) ==
            4.0 * Distance(m.target, view.Threat()) as real +
            weight * FloodFill.Area(view.n, view.barriers, view.position) as real
            + 1.5 * Flag(m.target !in view.visited) - 20.0 * At(view.belief, m.target)
  {
    hide FloodFill.Area, MostLikely, LegalMoves, Distance, At;
    FloodFill.TargetsShareArea(view.n, view.barriers, view.position, m);
  }

  lemma GapOutweighs(far: real, near: real, area: real, x: real, y: real, p: real, q: real)
    requires far >= near + 2.0 && 0.0 <= x <= 1.0 && 0.0 <= y <= 1.0 && p < q + 0.325
    ensures 4.0 * far + area + 1.5 * x - 20.0 * p > 4.0 * near + area + 1.5 * y - 20.0 * q
  {
  }

  /** So the top candidate is farthest from the threat among all targets that do not carry that much less belief. */
  lemma TopRankedIsFarthest(view: View, weight: real, best: Move, m: Move)
    requires Open(view.position, view.n, view.barriers) && best in view.Moves() && m in view.Moves()
    requires Ranked(view, weight)[0].action == MoveTo(best.direction)
    requires At(view.belief, m.target) < At(view.belief, best.target) + 0.325
    ensures Distance(m.target, view.Threat()) <= Distance(best.target, view.Threat())
  {
    hide Utility, MostLikely, LegalMoves, Distance, Sort, Step;
    if Distance(m.target, view.Threat()) > Distance(best.target, view.Threat()) {
      FartherRanksFirst(view, weight, m, best);
      TopHasBestUtility(view, weight, best, m);
    }
  }

  lemma MoveByDirection(view: View, a: Move, b: Move)
    requires a in view.Moves() && b in view.Moves() && a.direction == b.direction
    ensures a == b
  {
    hide LegalMoves;
    LegalMovesExact(view.n, view.position, view.barriers);
  }

  lemma TopHasBestUtility(view: View, weight: real, best: Move, m: Move)
    requires best in view.Moves() && m in view.Moves() && Ranked(view, weight)[0].action == MoveTo(best.direction)
    ensures Utility(view, weight, m.target) <= Utility(view, weight, best.target)
  {
    hide Utility, LegalMoves, Sort, Ahead;
    var moves := view.Moves();
    var cs := MoveCandidates(view, weight, moves);
    SortIsBestFirst(cs);
    var sorted := Sort(cs);
    assert sorted[0] in multiset(sorted);
    var i :| 0 <= i < |cs| && cs[i] == sorted[0];
    MoveByDirection(view, moves[i], best);
    var k :| 0 <= k < |moves| && moves[k] == m;
    assert cs[k] in multiset(cs);
    var j :| 0 <= j < |sorted| && sorted[j] == cs[k];
    NotAheadUtility(sorted, j);
  }

  lemma NotAheadUtility(sorted: seq<Candidate>, j: nat)
    requires BestFirst(sorted) && j < |sorted|
    ensures sorted[j].utility <= sorted[0].utility
  {
  }

  /** Likewise the mobility brain chooses as if its key had no area component. */
  lemma MobilityIgnoresArea(view: View)
    requires Open(view.position, view.n, view.barriers) && view.Moves() != []
    ensures MobilityPick(view) == FirstMax(view.Moves(), (m: Move) => PlainKey(view, m))
  {
    hide FloodFill.Area, LegalMoves;
    var full: Move -> seq<real> := (m: Move) => MobilityKey(view, TrueArea(view), m);
    var plain: Move -> seq<real> := (m: Move) => PlainKey(view, m);
    var moves := view.Moves();
    forall a, b | a in moves && b in moves
      ensures KeyGreater(full(a), full(b)) == KeyGreater(plain(a), plain(b))
    {
      FloodFill.TargetsShareArea(view.n, view.barriers, view.position, a);
      FloodFill.TargetsShareArea(view.n, view.barriers, view.position, b);
      EqualThirdComponent(full(a), full(b), plain(a), plain(b));
    }
    FirstMaxAgrees(moves, full, plain);
  }

  lemma EqualThirdComponent(a: seq<real>, b: seq<real>, c: seq<real>, d: seq<real>)
    requires |a| == |b| == |c| + 1 == |d| + 1 && |a| >= 3
    requires a[2] == b[2] && a[..2] + a[3..] == c && b[..2] + b[3..] == d
    ensures KeyGreater(a, b) == KeyGreater(c, d)
  {
    assert a[0] == c[0] && a[1] == c[1] && b[0] == d[0] && b[1] == d[1];
    assert a[1..][1..][1..] == a[3..] == c[2..] == c[1..][1..];
    assert b[1..][1..][1..] == b[3..] == d[2..] == d[1..][1..];
    assert KeyGreater(a[1..][1..], b[1..][1..]) == KeyGreater(a[1..][1..][1..], b[1..][1..][1..]);
  }

  // ----- a legal move, whatever the model says -----

  ghost predicate LegalAction(view: View, action: Action) {
    action.MoveTo? && Step(view.n, view.position, action.direction, view.barriers).Some?
  }

  lemma {:induction false} FindInList(cs: seq<Candidate>, actionId: string)
    ensures Find(cs, actionId).Some? ==> Find(cs, actionId).value in cs
  {
    if cs != [] {
      FindInList(cs[..|cs| - 1], actionId);
    }
  }

  /** Any reply yields either the fallback or an action of the ranked list. */
  lemma ChooseStaysListed(candidates: seq<Candidate>, fallback: Action, size: int, minConfidence: real, reply: Reply)
    ensures var choice := Choose(candidates, fallback, size, minConfidence, reply);
            choice.action == fallback || exists c :: c in candidates && c.action == choice.action
  {
    var length := Clip(size, 1, 4);
    var shortlist := if |candidates| <= length then candidates else candidates[..length];
    if reply.Answer? {
      FindInList(shortlist, reply.actionId);
    }
  }

  lemma RankedAreLegal(view: View, weight: real)
    requires view.Moves() != []
    ensures forall c :: c in Ranked(view, weight) ==> LegalAction(view, c.action)
  {
    hide FloodFill.Area, LegalMoves, Sort;
    var moves := view.Moves();
    LegalMovesExact(view.n, view.position, view.barriers);
    var cs := MoveCandidates(view, weight, moves);
    SortIsBestFirst(cs);
    forall c | c in Ranked(view, weight)
      ensures LegalAction(view, c.action)
    {
      var i :| 0 <= i < |Ranked(view, weight)| && Ranked(view, weight)[i] == c;
      assert Sort(cs)[i] in multiset(Sort(cs));
      var j :| 0 <= j < |cs| && cs[j] == Sort(cs)[i];
      assert moves[j] in moves;
    }
  }

  /** Whenever some step is legal, every shipped brain, with or without a model, makes a legal step. */
  lemma ShippedBrainsMove(brain: Brain, tactics: Option<Tactics>, view: View, reply: Reply)
    requires view.Moves() != []
    ensures LegalAction(view, Decide(brain, tactics, view, reply))
  {
    hide FirstMax, LegalMoves, Choose, Ranked, MobilityKey;
    LegalMovesExact(view.n, view.position, view.barriers);
    FirstMaxChosen(view.Moves(),
                   (m: Move) => [Distance(m.target, view.Threat()) as real, Flag(m.target !in view.visited)]);
    FirstMaxChosen(view.Moves(), (m: Move) => MobilityKey(view, TrueArea(view), m));
    var heuristic := HeuristicAction(brain, view);
    assert LegalAction(view, heuristic);
    if tactics.Some? {
      RankedAreLegal(view, AREA_WEIGHT);
      ChooseStaysListed(Ranked(view, AREA_WEIGHT), heuristic, tactics.value.size, tactics.value.minConfidence, reply);
    }
  }

  // ----- what the two heuristics prefer, cell by cell -----

  /** The place of a neighbouring cell in the order north, south, east, west. */
  function Turn(origin: Cell, target: Cell): nat {
    if target == (origin.0 - 1, origin.1) then 0
    else if target == (origin.0 + 1, origin.1) then 1
    else if target == (origin.0, origin.1 + 1) then 2
    else 3
  }

  /** The default brain would rather be on a than on b: farther away, then new, then first in the fixed order. */
  predicate Flees(view: View, threat: Cell, a: Cell, b: Cell) {
    var far, near := Distance(a, threat), Distance(b, threat);
    var fresher, other := a !in view.visited, b !in view.visited;
    far > near ||
    (far == near && ((fresher && !other) || (fresher == other && Turn(view.position, a) < Turn(view.position, b))))
  }

  /** The mobility brain: farther away, then less believed, then new, then farther north, then farther west. */
  predicate Slips(view: View, threat: Cell, a: Cell, b: Cell) {
    var far, near := Distance(a, threat), Distance(b, threat);
    var risk, riskier := At(view.belief, a), At(view.belief, b);
    var fresher, other := a !in view.visited, b !in view.visited;
    far > near ||
    (far == near && (risk < riskier ||
                     (risk == riskier && ((fresher && !other) ||
                                          (fresher == other && (a.0 < b.0 || (a.0 == b.0 && a.1 < b.1)))))))
  }

  predicate Prefers(brain: Brain, view: View, threat: Cell, a: Cell, b: Cell) {
    match brain case Evader => Flees(view, threat, a, b) case Mobility => Slips(view, threat, a, b)
  }

  predicate CanReach(view: View, target: Cell) {
    Adjacent(view.position, target) && Open(target, view.n, view.barriers)
  }

  /** The cell can be reached, and every other cell that can be reached is liked less. */
  ghost predicate Favourite(brain: Brain, view: View, threat: Cell, target: Cell) {
    CanReach(view, target) && forall t :: CanReach(view, t) && t != target ==> Prefers(brain, view, threat, target, t)
  }

  lemma MoveOnto(view: View, target: Cell) returns (m: Move)
    requires CanReach(view, target)
    ensures m in view.Moves() && m.target == target
  {
    hide LegalMoves;
    AdjacentIsStep(view.position, target);
    LegalMovesExact(view.n, view.position, view.barriers);
    var d: Direction :| Towards(view.position, d) == target;
    m := Move(d, target);
  }

  lemma MovesReach(view: View, m: Move)
    requires m in view.Moves()
    ensures CanReach(view, m.target) && Turn(view.position, m.target) == Place(m.direction)
  {
    hide LegalMoves;
    LegalMovesExact(view.n, view.position, view.barriers);
  }

  function Place(d: Direction): nat {
    match d case N => 0 case S => 1 case E => 2 case W => 3
  }

  ghost predicate InPlace(moves: seq<Move>) {
    forall i, j :: 0 <= i < j < |moves| ==> Place(moves[i].direction) < Place(moves[j].direction)
  }

  lemma {:induction false} MovesInPlace(n: int, origin: Cell, barriers: set<Cell>, directions: seq<Direction>)
    requires forall i, j :: 0 <= i < j < |directions| ==> Place(directions[i]) < Place(directions[j])
    ensures InPlace(LegalMovesFrom(n, origin, barriers, directions))
  {
    hide Step;
    if directions != [] {
      MovesInPlace(n, origin, barriers, directions[1..]);
      LegalMovesFromExact(n, origin, barriers, directions[1..]);
      var rest := LegalMovesFrom(n, origin, barriers, directions[1..]);
      forall i | 0 <= i < |rest|
        ensures Place(directions[0]) < Place(rest[i].direction)
      {
        assert rest[i] in rest;
        var j :| 0 <= j < |directions| - 1 && directions[1..][j] == rest[i].direction;
        assert directions[j + 1] == rest[i].direction;
      }
    }
  }

  lemma KeyStep(x: real, a: seq<real>, y: real, b: seq<real>)
    ensures KeyGreater([x] + a, [y] + b) <==> x > y || (x == y && KeyGreater(a, b))
  {
    assert ([x] + a)[1..] == a && ([y] + b)[1..] == b;
  }

  lemma KeyOfTwo(x: real, u: real, y: real, v: real)
    ensures KeyGreater([x, u], [y, v]) <==> x > y || (x == y && u > v)
  {
    KeyStep(x, [u], y, [v]);
    KeyStep(u, [], v, []);
    assert [x, u] == [x] + [u] && [y, v] == [y] + [v] && [u] == [u] + [] && [v] == [v] + [];
  }

  /** The default brain's move leads to its favourite cell, judged by the believed cell of the Police. */
  lemma EvaderPrefers(view: View)
    requires view.Moves() != []
    ensures ThiefPick(view) in view.Moves() &&
            Favourite(Evader, view, MostLikely(view.belief, view.n), ThiefPick(view).target)
  {
    hide LegalMoves, MostLikely, Distance, FirstMax, KeyGreater, CanReach, Turn;
    var moves, threat := view.Moves(), view.Threat();
    var key := (m: Move) => [Distance(m.target, view.Threat()) as real, Flag(m.target !in view.visited)];
    var pick := FirstMax(moves, key);
    FirstMaxIsMax(moves, key, 2);
    MovesInOrder(view);
    var i :| 0 <= i < |moves| && moves[i] == pick && forall j :: 0 <= j < i ==> KeyGreater(key(pick), key(moves[j]));
    MovesReach(view, pick);
    forall t | CanReach(view, t) && t != pick.target
      ensures Flees(view, threat, pick.target, t)
    {
      var m := MoveOnto(view, t);
      MovesReach(view, m);
      var j :| 0 <= j < |moves| && moves[j] == m;
      KeyOfTwo(Distance(m.target, threat) as real, Flag(t !in view.visited), Distance(pick.target, threat) as real,
               Flag(pick.target !in view.visited));
      KeyOfTwo(Distance(pick.target, threat) as real, Flag(pick.target !in view.visited),
               Distance(m.target, threat) as real, Flag(t !in view.visited));
    }
  }

  lemma MovesInOrder(view: View)
    ensures InPlace(view.Moves())
  {
    MovesInPlace(view.n, view.position, view.barriers, DIRECTIONS);
  }

  lemma KeyOfFive(a: seq<real>, b: seq<real>)
    requires |a| == 5 && |b| == 5
    ensures KeyGreater(a, b) <==>
              a[0] > b[0] ||
              (a[0] == b[0] && (a[1] > b[1] ||
                                (a[1] == b[1] && (a[2] > b[2] ||
                                                  (a[2] == b[2] && (a[3] > b[3] || (a[3] == b[3] && a[4] > b[4])))))))
  {
    hide KeyGreater;
    KeyStep(a[0], a[1..], b[0], b[1..]);
    KeyStep(a[1], a[2..], b[1], b[2..]);
    KeyStep(a[2], a[3..], b[2], b[3..]);
    KeyOfTwo(a[3], a[4], b[3], b[4]);
    assert a == [a[0]] + a[1..] && a[1..] == [a[1]] + a[2..] && a[2..] == [a[2]] + a[3..] && a[3..] == [a[3], a[4]];
    assert b == [b[0]] + b[1..] && b[1..] == [b[1]] + b[2..] && b[2..] == [b[2]] + b[3..] && b[3..] == [b[3], b[4]];
  }

  lemma PlainKeyPrefers(view: View, a: Move, b: Move)
    ensures KeyGreater(PlainKey(view, a), PlainKey(view, b)) <==> Slips(view, view.Threat(), a.target, b.target)
  {
    hide MostLikely, KeyGreater, At, Distance;
    KeyOfFive(PlainKey(view, a), PlainKey(view, b));
  }

  lemma SlipsTotal(view: View, threat: Cell, a: Cell, b: Cell)
    ensures Slips(view, threat, a, b) || Slips(view, threat, b, a) || a == b
  {
    hide At, Distance;
  }

  /** From an open cell the mobility brain's move leads to its favourite cell as well. */
  lemma MobilityPrefers(view: View)
    requires Open(view.position, view.n, view.barriers) && view.Moves() != []
    ensures MobilityPick(view) in view.Moves() &&
            Favourite(Mobility, view, MostLikely(view.belief, view.n), MobilityPick(view).target)
  {
    hide LegalMoves, MostLikely, FirstMax, KeyGreater, CanReach, PlainKey, Slips, MobilityPick;
    var moves, threat := view.Moves(), view.Threat();
    var key: Move -> seq<real> := (m: Move) => PlainKey(view, m);
    MobilityIgnoresArea(view);
    var pick := FirstMax(moves, key);
    forall m | m in moves
      ensures |key(m)| == 5
    {
      PlainKeyLength(view, m);
    }
    FirstMaxIsMax(moves, key, 5);
    FirstMaxChosen(moves, key);
    MovesReach(view, pick);
    forall t | CanReach(view, t) && t != pick.target
      ensures Slips(view, threat, pick.target, t)
    {
      var m := MoveOnto(view, t);
      PlainKeyPrefers(view, m, pick);
      SlipsTotal(view, threat, t, pick.target);
    }
  }

  lemma PlainKeyLength(view: View, m: Move)
    ensures |PlainKey(view, m)| == 5
  {
  }

  // ----- the ranked list and the model's choice, entry by entry -----

  /** Four points a step of distance, the weighted area, 1.5 for a new cell, minus twenty times the belief. */
  ghost function Worth(view: View, weight: real, target: Cell): real {
    4.0 * Distance(target, MostLikely(view.belief, view.n)) as real +
      weight * FloodFill.Area(view.n, view.barriers, target) as real +
      (if target in view.visited then 0.0 else 1.5) - 20.0 * At(view.belief, target)
  }

  /** The entry at place i: its id, one legal move, and what that move is worth. */
  ghost predicate EntryOf(view: View, weight: real, c: Candidate, i: nat, m: Move) {
    c == Candidate("A" + Wire.Decimal(i), MoveTo(m.direction), m.target, Worth(view, weight, m.target))
  }

  ghost predicate Listed(view: View, weight: real, c: Candidate, i: nat) {
    exists m :: m in view.Moves() && EntryOf(view, weight, c, i, m)
  }

  /** Worth more, or worth as much and earlier in the order east, north, south, west. */
  predicate Better(a: Candidate, b: Candidate) {
    a.action.MoveTo? && b.action.MoveTo? &&
    (a.utility > b.utility || (a.utility == b.utility && TextPlace(a.action.direction) < TextPlace(b.action.direction)))
  }

  function TextPlace(d: Direction): nat {
    match d case E => 0 case N => 1 case S => 2 case W => 3
  }

  lemma EntryListed(view: View, weight: real, i: nat)
    requires view.Moves() != [] && i < |Ranked(view, weight)|
    ensures Listed(view, weight, Ranked(view, weight)[i], i)
  {
    hide FloodFill.Area, LegalMoves, Sort, MostLikely, Utility, Worth, Wire.Decimal, EntryOf, BestFirst;
    var moves := view.Moves();
    var cs := MoveCandidates(view, weight, moves);
    SortIsBestFirst(cs);
    assert Sort(cs)[i] in multiset(Sort(cs));
    var k :| 0 <= k < |cs| && cs[k] == Sort(cs)[i];
    NumberedEntry(view, weight, moves[k], Sort(cs)[i], i);
    assert moves[k] in moves;
  }

  lemma MoveListed(view: View, weight: real, m: Move) returns (i: nat)
    requires m in view.Moves()
    ensures i < |Ranked(view, weight)| && EntryOf(view, weight, Ranked(view, weight)[i], i, m)
  {
    hide FloodFill.Area, LegalMoves, Sort, MostLikely, Utility, Worth, Wire.Decimal, EntryOf, BestFirst;
    var moves := view.Moves();
    var cs := MoveCandidates(view, weight, moves);
    SortIsBestFirst(cs);
    var k :| 0 <= k < |moves| && moves[k] == m;
    assert cs[k] in multiset(cs);
    i :| 0 <= i < |Sort(cs)| && Sort(cs)[i] == cs[k];
    NumberedEntry(view, weight, m, Sort(cs)[i], i);
  }

  /** With a legal step the ranked list holds each legal move once, better ones first, numbered A0, A1, ... */
  lemma RankedExact(view: View, weight: real)
    requires view.Moves() != []
    ensures var ranked := Ranked(view, weight);
            |ranked| == |view.Moves()| &&
            (forall i :: 0 <= i < |ranked| ==> Listed(view, weight, ranked[i], i)) &&
            (forall i, j :: 0 <= i < j < |ranked| ==> Better(ranked[i], ranked[j])) &&
            (forall m :: m in view.Moves() ==> exists i :: 0 <= i < |ranked| && EntryOf(view, weight, ranked[i], i, m))
  {
    hide FloodFill.Area, LegalMoves, Sort, MostLikely, Utility, Wire.Decimal, Better, EntryOf, BestFirst, Listed;
    hide InPlace;
    var moves := view.Moves();
    var cs := MoveCandidates(view, weight, moves);
    var sorted, ranked := Sort(cs), Ranked(view, weight);
    SortIsBestFirst(cs);
    assert |multiset(sorted)| == |sorted| && |multiset(cs)| == |cs|;
    forall i | 0 <= i < |ranked|
      ensures Listed(view, weight, ranked[i], i)
    {
      EntryListed(view, weight, i);
    }
    forall m | m in moves
      ensures exists i :: 0 <= i < |ranked| && EntryOf(view, weight, ranked[i], i, m)
    {
      var i := MoveListed(view, weight, m);
    }
    MovesInOrder(view);
    forall i, j | 0 <= i < j < |ranked|
      ensures Better(ranked[i], ranked[j])
    {
      DistinctEntries(moves, cs, sorted, i, j);
      BetterOf(sorted, ranked, i, j);
    }
  }

  lemma NumberedEntry(view: View, weight: real, m: Move, c: Candidate, i: nat)
    requires c == Candidate("", MoveTo(m.direction), m.target, Utility(view, weight, m.target))
    ensures EntryOf(view, weight, c.(actionId := "A" + Wire.Decimal(i)), i, m)
  {
    hide FloodFill.Area, MostLikely, Distance, At;
  }

  /** Two places of the sorted list hold moves in different directions. */
  lemma DistinctEntries(moves: seq<Move>, cs: seq<Candidate>, sorted: seq<Candidate>, i: nat, j: nat)
    requires InPlace(moves) && |cs| == |moves| && multiset(sorted) == multiset(cs) && i < j < |sorted|
    requires forall k :: 0 <= k < |cs| ==> cs[k].action == MoveTo(moves[k].direction)
    ensures sorted[i].action.MoveTo? && sorted[j].action.MoveTo?
    ensures sorted[i].action.direction != sorted[j].action.direction
  {
    assert sorted[i] in multiset(sorted) && sorted[j] in multiset(sorted);
    var a :| 0 <= a < |cs| && cs[a] == sorted[i];
    var b :| 0 <= b < |cs| && cs[b] == sorted[j];
    if a == b {
      assert sorted == sorted[..i] + [sorted[i]] + sorted[i + 1..j] + [sorted[j]] + sorted[j + 1..];
      assert multiset(sorted)[sorted[i]] >= 2;
      OnceOnly(moves, cs, a);
    }
  }

  lemma OnceOnly(moves: seq<Move>, cs: seq<Candidate>, a: nat)
    requires InPlace(moves) && |cs| == |moves| && a < |cs|
    requires forall k :: 0 <= k < |cs| ==> cs[k].action == MoveTo(moves[k].direction)
    ensures multiset(cs)[cs[a]] == 1
  {
    assert cs == cs[..a] + [cs[a]] + cs[a + 1..];
    forall k | 0 <= k < |cs| && k != a
      ensures cs[k] != cs[a]
    {
      assert Place(moves[k].direction) != Place(moves[a].direction);
    }
    assert cs[a] !in cs[..a] && cs[a] !in cs[a + 1..];
  }

  lemma BetterOf(sorted: seq<Candidate>, ranked: seq<Candidate>, i: nat, j: nat)
    requires BestFirst(sorted) && i < j < |sorted| == |ranked|
    requires sorted[i].action.MoveTo? && sorted[j].action.MoveTo?
    requires sorted[i].action.direction != sorted[j].action.direction
    requires ranked[i].utility == sorted[i].utility && ranked[i].action == sorted[i].action
    requires ranked[j].utility == sorted[j].utility && ranked[j].action == sorted[j].action
    ensures Better(ranked[i], ranked[j])
  {
    assert !Ahead(sorted[j], sorted[i]);
  }

  const IDS: seq<string> := ["A0", "A1", "A2", "A3"]

  /** How many of the ranked entries the model is shown: at least one and at most four, if there are that many. */
  function Shown(size: int, ranked: nat): nat {
    var most := if size < 1 then 1 else if size > 4 then 4 else size;
    if ranked < most then ranked else most
  }

  /** The model names entry i by its id, with at least the confidence that is asked for, itself cut to [0, 1]. */
  predicate Names(tactics: Tactics, reply: Reply, i: nat) {
    var least := tactics.minConfidence;
    i < 4 && reply.Answer? && reply.actionId == IDS[i] &&
    reply.confidence >= if least < 0.0 then 0.0 else if least > 1.0 then 1.0 else least
  }

  lemma {:induction false} FindById(cs: seq<Candidate>, i: nat)
    requires i < |cs| && forall j :: i < j < |cs| ==> cs[j].actionId != cs[i].actionId
    ensures Find(cs, cs[i].actionId) == Some(cs[i])
  {
    if i < |cs| - 1 {
      FindById(cs[..|cs| - 1], i);
    }
  }

  lemma {:induction false} NotFound(cs: seq<Candidate>, actionId: string)
    requires forall i :: 0 <= i < |cs| ==> cs[i].actionId != actionId
    ensures Find(cs, actionId) == None
  {
    if cs != [] {
      NotFound(cs[..|cs| - 1], actionId);
    }
  }

  lemma RankedIds(view: View, weight: real, i: nat)
    requires i < |Ranked(view, weight)| && i < 4
    ensures Ranked(view, weight)[i].actionId == IDS[i]
  {
    hide Sort, MoveCandidates;
    assert Wire.Decimal(i) == [Wire.DigitChar(i)];
    assert IDS[i] == "A" + [Wire.DigitChar(i)];
  }

  lemma IdsDiffer(i: nat, j: nat)
    requires i < j < 4
    ensures IDS[i] != IDS[j]
  {
    assert IDS[i][1] != IDS[j][1];
  }

  /** What the choice is when entry i of the shown list has the id that the model names, and when none has. */
  lemma ChosenEntry(ranked: seq<Candidate>, heuristic: Action, tactics: Tactics, reply: Reply, i: nat)
    requires i < Shown(tactics.size, |ranked|) && reply.Answer? && reply.actionId == ranked[i].actionId == IDS[i]
    requires forall j :: i < j < Shown(tactics.size, |ranked|) ==> ranked[j].actionId != ranked[i].actionId
    ensures Choose(ranked, heuristic, tactics.size, tactics.minConfidence, reply).action
         == if Names(tactics, reply, i) then ranked[i].action else heuristic
  {
    hide Find;
    var shown := Shown(tactics.size, |ranked|);
    FindById(ranked[..shown], i);
    assert shown == |ranked| ==> ranked[..shown] == ranked;
  }

  lemma NothingChosen(ranked: seq<Candidate>, heuristic: Action, tactics: Tactics, reply: Reply)
    requires reply.Answer? ==>
               forall i :: 0 <= i < Shown(tactics.size, |ranked|) ==> ranked[i].actionId != reply.actionId
    ensures Choose(ranked, heuristic, tactics.size, tactics.minConfidence, reply).action == heuristic
  {
    hide Find;
    var shown := Shown(tactics.size, |ranked|);
    if reply.Answer? {
      NotFound(ranked[..shown], reply.actionId);
    }
    assert shown == |ranked| ==> ranked[..shown] == ranked;
  }

  /**
   * The model's entry is taken exactly when it was shown and named with confidence; otherwise the heuristic's move
   * stands.
   */
  lemma ModelDecides(brain: Brain, tactics: Tactics, view: View, reply: Reply)
    ensures var ranked := Ranked(view, AREA_WEIGHT);
            var decided := Decide(brain, Some(tactics), view, reply);
            (forall i :: 0 <= i < Shown(tactics.size, |ranked|) && Names(tactics, reply, i) ==>
               decided == ranked[i].action) &&
            ((forall i :: 0 <= i < Shown(tactics.size, |ranked|) ==> !Names(tactics, reply, i)) ==>
             decided == Decide(brain, None, view, reply))
  {
    hide Ranked, HeuristicAction, Choose;
    var ranked, heuristic := Ranked(view, AREA_WEIGHT), HeuristicAction(brain, view);
    var shown := Shown(tactics.size, |ranked|);
    forall i | 0 <= i < shown
      ensures ranked[i].actionId == IDS[i]
    {
      RankedIds(view, AREA_WEIGHT, i);
    }
    forall i, j | 0 <= i < j < shown
      ensures ranked[i].actionId != ranked[j].actionId
    {
      IdsDiffer(i, j);
    }
    if reply.Answer? && exists i :: 0 <= i < shown && reply.actionId == ranked[i].actionId {
      var i :| 0 <= i < shown && reply.actionId == ranked[i].actionId;
      ChosenEntry(ranked, heuristic, tactics, reply, i);
      forall j | 0 <= j < shown && j != i
        ensures !Names(tactics, reply, j)
      {
        assert ranked[j].actionId != ranked[i].actionId;
      }
    } else {
      NothingChosen(ranked, heuristic, tactics, reply);
    }
  }
}

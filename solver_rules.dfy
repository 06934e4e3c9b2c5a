/**
 * The rules the solver searches with: its own completion tests, its own
 * move generator and move application, and the heuristic that orders the
 * search. They differ from the move engine's: a move always carries the
 * whole top run of its source, destinations are taken to hold
 * SolverCapacity units whatever the bottle height, and the free space of
 * the destination does not cap the amount.
 */
module SolverRules {
  import opened Puzzles

  /** The capacity getValidMoves assumes for every destination bottle. */
  const SolverCapacity := 4

  // ---------------------------------------------------------------------
  // isSolved, isGoalState
  // ---------------------------------------------------------------------

  /** `every`: each bottle is empty, or as tall as `h` and of one colour. */
  function IsSolved(p: Puzzle, h: int): (r: bool)
    ensures r == Solved(p, h)
    decreases |p|
  {
    if |p| == 0 then true
    else
      var b := p[|p| - 1];
      IsSolved(p[..|p| - 1], h) && (|b| == 0 || (|b| == h && forall j :: 0 <= j < |b| ==> b[j] == b[0]))
  }

  /** A solved state is a goal state; the goal test has no height requirement. */
  lemma SolvedIsGoal(p: Puzzle, h: int)
    requires IsSolved(p, h)
    ensures AllMonochrome(p)
  {
    SolvedIsAllMonochrome(p, h);
  }

  /** The goal test: every non-empty bottle holds a single colour. */
  method IsGoalState(state: Puzzle) returns (goal: bool)
    ensures goal == AllMonochrome(state)
  {
    for i := 0 to |state|
      invariant forall m :: 0 <= m < i ==> Monochrome(state[m])
    {
      var bottle := state[i];
      if |bottle| == 0 {
        continue;
      }
      var firstColor := bottle[0];
      for j := 0 to |bottle|
        invariant forall t :: 0 <= t < j ==> bottle[t] == firstColor
      {
        if bottle[j] != firstColor {
          return false;
        }
      }
    }
    return true;
  }

  // ---------------------------------------------------------------------
  // getValidMoves
  // ---------------------------------------------------------------------

  /**
   * A move getValidMoves produces: a non-empty source, another bottle that
   * is empty or below SolverCapacity with the same top colour, and the
   * whole top run of the source as the amount.
   */
  predicate SolverMove(p: Puzzle, m: Move) {
    InRange(p, m.from) && InRange(p, m.to) && m.from != m.to && |p[m.from]| > 0 &&
    (|p[m.to]| == 0 || (|p[m.to]| < SolverCapacity && Top(p[m.to]) == Top(p[m.from]))) &&
    m.amount == TopRun(p[m.from])
  }

  /** The order getValidMoves lists moves in: by source, then by destination. */
  predicate Before(a: Move, b: Move) {
    a.from < b.from || (a.from == b.from && a.to < b.to)
  }

  /** The moves from source `i` to the destinations below `n`, in ascending destination order. */
  function TargetsBelow(p: Puzzle, i: int, n: int): seq<Move>
    requires InRange(p, i) && |p[i]| > 0 && 0 <= n <= |p|
    decreases n
  {
    if n == 0 then []
    else
      var m := Move(i, n - 1, TopRun(p[i]));
      TargetsBelow(p, i, n - 1) + (if SolverMove(p, m) then [m] else [])
  }

  /** Every move in `r` is a solver move from `i` to a destination below `n`. */
  predicate TargetsSound(p: Puzzle, i: int, n: int, r: seq<Move>) {
    forall t :: 0 <= t < |r| ==> SolverMove(p, r[t]) && r[t].from == i && r[t].to < n
  }

  /** Every solver move from `i` (a non-empty source) to a destination below `n` is in `r`. */
  predicate TargetsComplete(p: Puzzle, i: int, n: int, r: seq<Move>)
    requires InRange(p, i) && |p[i]| > 0
  {
    forall k :: 0 <= k < n && SolverMove(p, Move(i, k, TopRun(p[i]))) ==> Move(i, k, TopRun(p[i])) in r
  }

  predicate TargetsAscending(r: seq<Move>) {
    forall a, b :: 0 <= a < b < |r| ==> r[a].to < r[b].to
  }

  /**
   * The moves listed for source `i` are its solver moves to the destinations
   * below `n`, all of them, in ascending destination order.
   */
  lemma {:induction false} TargetsBelowExact(p: Puzzle, i: int, n: int)
    requires InRange(p, i) && |p[i]| > 0 && 0 <= n <= |p|
    ensures TargetsSound(p, i, n, TargetsBelow(p, i, n))
    ensures TargetsComplete(p, i, n, TargetsBelow(p, i, n))
    ensures TargetsAscending(TargetsBelow(p, i, n))
    decreases n
  {
    if n > 0 {
      TargetsBelowExact(p, i, n - 1);
      var m := Move(i, n - 1, TopRun(p[i]));
      TargetsExactStep(p, i, n - 1, TargetsBelow(p, i, n - 1), if SolverMove(p, m) then [m] else []);
    }
  }

  lemma TargetsExactStep(p: Puzzle, i: int, k: int, r: seq<Move>, extra: seq<Move>)
    requires InRange(p, i) && |p[i]| > 0 && 0 <= k < |p|
    requires TargetsSound(p, i, k, r) && TargetsComplete(p, i, k, r) && TargetsAscending(r)
    requires var m := Move(i, k, TopRun(p[i])); extra == if SolverMove(p, m) then [m] else []
    ensures TargetsSound(p, i, k + 1, r + extra)
    ensures TargetsComplete(p, i, k + 1, r + extra)
    ensures TargetsAscending(r + extra)
  {
  }

  /** The moves of every source below `n`. */
  function SourcesBelow(p: Puzzle, n: int): seq<Move>
    requires 0 <= n <= |p|
    decreases n
  {
    if n == 0 then []
    else SourcesBelow(p, n - 1) + (if |p[n - 1]| == 0 then [] else TargetsBelow(p, n - 1, |p|))
  }

  /** Every move listed for the sources below `n` is a solver move of such a source, in order. */
  lemma {:induction false} SourcesBelowSound(p: Puzzle, n: int)
    requires 0 <= n <= |p|
    ensures forall t :: 0 <= t < |SourcesBelow(p, n)| ==>
      SolverMove(p, SourcesBelow(p, n)[t]) && SourcesBelow(p, n)[t].from < n
    ensures forall a, b :: 0 <= a < b < |SourcesBelow(p, n)| ==>
      Before(SourcesBelow(p, n)[a], SourcesBelow(p, n)[b])
    decreases n
  {
    if n > 0 {
      SourcesBelowSound(p, n - 1);
      SourcesBelowOrdered(p, n, SourcesBelow(p, n - 1),
        if |p[n - 1]| == 0 then [] else TargetsBelow(p, n - 1, |p|));
    }
  }

  lemma SourcesBelowOrdered(p: Puzzle, n: int, earlier: seq<Move>, last: seq<Move>)
    requires 0 < n <= |p|
    requires forall t :: 0 <= t < |earlier| ==> SolverMove(p, earlier[t]) && earlier[t].from < n - 1
    requires forall a, b :: 0 <= a < b < |earlier| ==> Before(earlier[a], earlier[b])
    requires last == if |p[n - 1]| == 0 then [] else TargetsBelow(p, n - 1, |p|)
    ensures forall t :: 0 <= t < |earlier + last| ==> SolverMove(p, (earlier + last)[t]) && (earlier + last)[t].from < n
    ensures forall a, b :: 0 <= a < b < |earlier + last| ==> Before((earlier + last)[a], (earlier + last)[b])
  {
    var r := earlier + last;
    if |p[n - 1]| > 0 {
      TargetsBelowExact(p, n - 1, |p|);
    }
    assert forall t :: 0 <= t < |last| ==> last[t].from == n - 1;
    forall t | 0 <= t < |r|
      ensures SolverMove(p, r[t]) && r[t].from < n
    {
      if t >= |earlier| {
        assert r[t] == last[t - |earlier|];
      }
    }
    forall a, b | 0 <= a < b < |r|
      ensures Before(r[a], r[b])
    {
      if b < |earlier| {
        assert r[a] == earlier[a] && r[b] == earlier[b];
      } else if a < |earlier| {
        assert r[a] == earlier[a] && r[b] == last[b - |earlier|];
      } else {
        assert r[a] == last[a - |earlier|] && r[b] == last[b - |earlier|];
      }
    }
  }

  /** Every move of a source below `n` is listed. */
  lemma {:induction false} SourcesBelowComplete(p: Puzzle, n: int, m: Move)
    requires 0 <= n <= |p| && SolverMove(p, m) && m.from < n
    ensures m in SourcesBelow(p, n)
    decreases n
  {
    SourcesBelowStep(p, n - 1);
    if m.from < n - 1 {
      SourcesBelowComplete(p, n - 1, m);
      InConcat(SourcesBelow(p, n - 1), if |p[n - 1]| == 0 then [] else TargetsBelow(p, n - 1, |p|), m);
    } else {
      TargetListed(p, m);
      InConcat(SourcesBelow(p, n - 1), TargetsBelow(p, n - 1, |p|), m);
    }
  }

  lemma InConcat<T>(a: seq<T>, b: seq<T>, x: T)
    requires x in a || x in b
    ensures x in a + b
  {
  }

  /** A solver move is among its source's listed moves. */
  lemma TargetListed(p: Puzzle, m: Move)
    requires SolverMove(p, m)
    ensures m in TargetsBelow(p, m.from, |p|)
  {
    TargetsBelowExact(p, m.from, |p|);
    assert m == Move(m.from, m.to, TopRun(p[m.from]));
  }

  /** The moves getValidMoves returns. */
  function ValidMoves(p: Puzzle): seq<Move> {
    SourcesBelow(p, |p|)
  }

  /** getValidMoves lists exactly the solver moves, each once, in source-then-destination order. */
  lemma ValidMovesExact(p: Puzzle, m: Move)
    ensures m in ValidMoves(p) <==> SolverMove(p, m)
    ensures forall a, b :: 0 <= a < b < |ValidMoves(p)| ==> Before(ValidMoves(p)[a], ValidMoves(p)[b])
  {
    SourcesBelowSound(p, |p|);
    if SolverMove(p, m) {
      SourcesBelowComplete(p, |p|, m);
    }
  }

  /** Every move getValidMoves lists is a solver move. */
  lemma ValidMovesSound(p: Puzzle)
    ensures forall k :: 0 <= k < |ValidMoves(p)| ==> SolverMove(p, ValidMoves(p)[k])
  {
    SourcesBelowSound(p, |p|);
  }

  /** The run-counting loop of getValidMoves: the length of the top run. */
  method CountTopRun(b: Bottle) returns (count: nat)
    requires |b| > 0
    ensures count == TopRun(b)
  {
    var topColor := b[|b| - 1];
    count := 1;
    var j := |b| - 2;
    while j >= 0
      invariant -1 <= j <= |b| - 2
      invariant count == |b| - 1 - j
      invariant forall t :: j < t < |b| ==> b[t] == topColor
    {
      if b[j] == topColor {
        count := count + 1;
      } else {
        break;
      }
      j := j - 1;
    }
    TopRunUnique(b, count);
  }

  lemma TargetsBelowStep(p: Puzzle, i: int, k: int)
    requires InRange(p, i) && |p[i]| > 0 && 0 <= k < |p|
    ensures var m := Move(i, k, TopRun(p[i]));
      TargetsBelow(p, i, k + 1) == TargetsBelow(p, i, k) + (if SolverMove(p, m) then [m] else [])
  {
  }

  lemma SourcesBelowStep(p: Puzzle, i: int)
    requires 0 <= i < |p|
    ensures SourcesBelow(p, i + 1) ==
      SourcesBelow(p, i) + (if |p[i]| == 0 then [] else TargetsBelow(p, i, |p|))
  {
  }

  method GetValidMoves(state: Puzzle) returns (moves: seq<Move>)
    ensures moves == ValidMoves(state)
  {
    moves := [];
    var n := |state|;
    for i := 0 to n
      invariant moves == SourcesBelow(state, i)
    {
      SourcesBelowStep(state, i);
      if |state[i]| == 0 {
        continue;
      }
      var topColor := Top(state[i]);
      var count := CountTopRun(state[i]);
      var targets := ListTargets(state, i, topColor, count);
      moves := moves + targets;
    }
  }

  /** The inner loop of getValidMoves: the moves from source `i`, by destination. */
  method ListTargets(state: Puzzle, i: int, topColor: Color, count: nat) returns (moves: seq<Move>)
    requires InRange(state, i) && |state[i]| > 0
    requires topColor == Top(state[i]) && count == TopRun(state[i])
    ensures moves == TargetsBelow(state, i, |state|)
  {
    moves := [];
    for k := 0 to |state|
      invariant moves == TargetsBelow(state, i, k)
    {
      TargetsBelowStep(state, i, k);
      if i == k {
        continue;
      }
      if |state[k]| == 0 || (|state[k]| < SolverCapacity && state[k][|state[k]| - 1] == topColor) {
        moves := moves + [Move(i, k, count)];
      }
    }
  }

  // ---------------------------------------------------------------------
  // applyMove
  // ---------------------------------------------------------------------

  /**
   * The number of units `splice(-amount, amount)` removes from a bottle of
   * length `len`: the top `amount` of them, all of them when `amount`
   * exceeds the length, and none when `amount` is not positive.
   */
  function SpliceCount(len: nat, amount: int): (n: nat)
    ensures n <= len
    ensures 0 <= amount <= len ==> n == amount
    ensures amount <= 0 ==> n == 0
    ensures amount >= len ==> n == len
  {
    if amount <= 0 then 0 else Min(amount, len)
  }

  /**
   * The state applyMove returns: the spliced units are appended to the
   * destination in order, every other bottle is unchanged, and no colour is
   * created or lost; when source and destination coincide the units go back
   * where they were.
   */
  function Applied(p: Puzzle, m: Move): (r: Puzzle)
    requires InRange(p, m.from) && InRange(p, m.to)
    ensures |r| == |p|
    ensures ColorBag(r) == ColorBag(p)
    ensures m.from != m.to ==> r == Pour(p, m.from, m.to, SpliceCount(|p[m.from]|, m.amount))
    ensures m.from == m.to ==> r == p
  {
    var k := SpliceCount(|p[m.from]|, m.amount);
    if m.from == m.to then
      assert p[m.from][..|p[m.from]| - k] + p[m.from][|p[m.from]| - k..] == p[m.from];
      p
    else Pour(p, m.from, m.to, k)
  }

  /** splice on a copy of the source, push on the destination. */
  method ApplyMove(state: Puzzle, m: Move) returns (newState: Puzzle)
    requires InRange(state, m.from) && InRange(state, m.to)
    ensures newState == Applied(state, m)
  {
    newState := state;
    var source := newState[m.from];
    var k := SpliceCount(|source|, m.amount);
    var movingColors := source[|source| - k..];
    newState := newState[m.from := source[..|source| - k]];
    newState := newState[m.to := newState[m.to] + movingColors];
    assert source[..|source| - k] + movingColors == source;
  }

  /** A listed move pours exactly its amount, the source's whole top run. */
  lemma SolverMoveApplies(p: Puzzle, m: Move)
    requires SolverMove(p, m)
    ensures Applied(p, m) == Pour(p, m.from, m.to, m.amount)
    ensures 1 <= m.amount <= |p[m.from]|
  {
  }

  /**
   * getValidMoves does not cap the amount by the free space: pouring the
   * run of two onto a bottle of three gives a bottle of five, above
   * SolverCapacity.
   */
  lemma SolverMoveCanOverfill()
    ensures var p: Puzzle := [[2, 1, 1], [2, 1, 1], [2, 2]];
      SolverMove(p, Move(1, 0, 2)) && |Applied(p, Move(1, 0, 2))[0]| == 5 > SolverCapacity
  {
    var p: Puzzle := [[2, 1, 1], [2, 1, 1], [2, 2]];
    TopRunUnique(p[1], 2);
    assert Applied(p, Move(1, 0, 2)) == Pour(p, 1, 0, 2);
  }

  // ---------------------------------------------------------------------
  // The heuristic: countMisplacedColors, countIncompleteBottles,
  // calculateColorDispersion
  // ---------------------------------------------------------------------

  /** The units of `b` whose colour is not `c`. */
  function CountOther(b: Bottle, c: Color): (n: nat)
    ensures n <= |b|
    ensures n == 0 <==> forall j :: 0 <= j < |b| ==> b[j] == c
    decreases |b|
  {
    if |b| == 0 then 0 else CountOther(b[..|b| - 1], c) + (if b[|b| - 1] != c then 1 else 0)
  }

  /** The units of a bottle that differ from its bottom unit. */
  function Misplaced(b: Bottle): (n: nat)
    ensures n == 0 <==> Monochrome(b)
  {
    if |b| == 0 then 0 else CountOther(b, b[0])
  }

  /** countMisplacedColors: summed over the bottles. */
  function MisplacedColors(p: Puzzle): (n: nat)
    ensures n == 0 <==> AllMonochrome(p)
    decreases |p|
  {
    if |p| == 0 then 0 else MisplacedColors(p[..|p| - 1]) + Misplaced(p[|p| - 1])
  }

  /** countIncompleteBottles: the bottles holding more than one colour. */
  function IncompleteBottles(p: Puzzle): (n: nat)
    ensures n <= |p|
    ensures n == 0 <==> AllMonochrome(p)
    decreases |p|
  {
    if |p| == 0 then 0
    else IncompleteBottles(p[..|p| - 1]) + (if Monochrome(p[|p| - 1]) then 0 else 1)
  }

  method CountMisplacedColors(state: Puzzle) returns (misplaced: nat)
    ensures misplaced == MisplacedColors(state)
  {
    misplaced := 0;
    for i := 0 to |state|
      invariant misplaced == MisplacedColors(state[..i])
    {
      assert state[..i + 1][..i] == state[..i];
      var bottle := state[i];
      if |bottle| == 0 {
        continue;
      }
      var targetColor := bottle[0];
      ghost var before := misplaced;
      for j := 0 to |bottle|
        invariant misplaced == before + CountOther(bottle[..j], targetColor)
      {
        assert bottle[..j + 1][..j] == bottle[..j];
        if bottle[j] != targetColor {
          misplaced := misplaced + 1;
        }
      }
      assert bottle[..|bottle|] == bottle;
    }
    assert state[..|state|] == state;
  }

  method CountIncompleteBottles(state: Puzzle) returns (incomplete: nat)
    ensures incomplete == IncompleteBottles(state)
  {
    incomplete := 0;
    for i := 0 to |state|
      invariant incomplete == IncompleteBottles(state[..i])
    {
      assert state[..i + 1][..i] == state[..i];
      var bottle := state[i];
      if |bottle| == 0 {
        continue;
      }
      var firstColor := bottle[0];
      var mixed := false;
      for j := 0 to |bottle|
        invariant mixed <==> exists t :: 0 <= t < j && bottle[t] != firstColor
      {
        if bottle[j] != firstColor {
          mixed := true;
        }
      }
      if mixed {
        incomplete := incomplete + 1;
      }
    }
    assert state[..|state|] == state;
  }

  /** The bottles below `n` that hold colour `c`. */
  function HoldersBelow(p: Puzzle, c: Color, n: int): set<int>
    requires 0 <= n <= |p|
  {
    set i | 0 <= i < n && c in p[i]
  }

  /** The bottles that hold colour `c`. */
  function Holders(p: Puzzle, c: Color): set<int> {
    HoldersBelow(p, c, |p|)
  }

  /** A colour of the puzzle sits in at least one bottle. */
  lemma HoldersNonEmpty(p: Puzzle, c: Color)
    requires c in Flat(p)
    ensures |Holders(p, c)| >= 1
  {
    FlatContains(p, c);
    var i :| 0 <= i < |p| && c in p[i];
    assert i in Holders(p, c);
  }

  /** The dispersion of the colours `cs`: for each, the bottles holding it, less one. */
  function DispersionOf(p: Puzzle, cs: seq<Color>): int
    decreases |cs|
  {
    if |cs| == 0 then 0 else DispersionOf(p, cs[..|cs| - 1]) + |Holders(p, cs[|cs| - 1])| - 1
  }

  /** Over colours the puzzle holds, the dispersion is a sum of non-negative terms, zero exactly when each is. */
  lemma {:induction false} DispersionOfZero(p: Puzzle, cs: seq<Color>)
    requires forall k :: 0 <= k < |cs| ==> cs[k] in Flat(p)
    ensures DispersionOf(p, cs) >= 0
    ensures DispersionOf(p, cs) == 0 <==> forall k :: 0 <= k < |cs| ==> |Holders(p, cs[k])| == 1
    decreases |cs|
  {
    if |cs| > 0 {
      DispersionOfZero(p, cs[..|cs| - 1]);
      HoldersNonEmpty(p, cs[|cs| - 1]);
      assert forall k :: 0 <= k < |cs| - 1 ==> cs[..|cs| - 1][k] == cs[k];
    }
  }

  /** calculateColorDispersion, over the colours in the order the Map meets them. */
  function ColorDispersion(p: Puzzle): int {
    DispersionOf(p, Dedup(Flat(p)))
  }

  /** The dispersion is never negative, and is zero exactly when every colour sits in a single bottle. */
  lemma ColorDispersionZero(p: Puzzle)
    ensures ColorDispersion(p) >= 0
    ensures ColorDispersion(p) == 0 <==> forall c :: c in Flat(p) ==> |Holders(p, c)| == 1
  {
    var cs := Dedup(Flat(p));
    DispersionOfZero(p, cs);
    if ColorDispersion(p) == 0 {
      forall c | c in Flat(p)
        ensures |Holders(p, c)| == 1
      {
        var k :| 0 <= k < |cs| && cs[k] == c;
      }
    }
  }

  /**
   * The Map of calculateColorDispersion after the units `seen`, which are
   * those of the bottles below `i` and then `done` from bottle `i`: a
   * colour is a key exactly when it was seen, bottle `t` is in its set
   * exactly when a seen unit of that colour came from bottle `t`, and
   * `order` is the order the Map met its keys in.
   */
  ghost predicate PositionsOf(state: Puzzle, positions: map<Color, set<int>>, order: seq<Color>,
                              seen: seq<Color>, i: int, done: seq<Color>)
    requires 0 <= i <= |state|
  {
    (forall c :: c in positions <==> c in seen) &&
    (forall c, t :: c in positions ==>
      (t in positions[c] <==> t in HoldersBelow(state, c, i) || (t == i && c in done))) &&
    (forall c, t :: t in HoldersBelow(state, c, i) ==> c in positions) &&
    (forall c :: c in done ==> c in positions) &&
    order == Dedup(seen)
  }

  /** Once bottle `i` is fully recorded, the Map covers the bottles below `i + 1`. */
  lemma PositionsNext(state: Puzzle, positions: map<Color, set<int>>, order: seq<Color>, seen: seq<Color>, i: int)
    requires 0 <= i < |state|
    requires PositionsOf(state, positions, order, seen, i, state[i])
    ensures PositionsOf(state, positions, order, seen, i + 1, [])
  {
    forall c
      ensures HoldersBelow(state, c, i + 1) == HoldersBelow(state, c, i) + (if c in state[i] then {i} else {})
    {
      HoldersBelowStep(state, c, i);
    }
  }

  lemma HoldersBelowStep(p: Puzzle, c: Color, i: int)
    requires 0 <= i < |p|
    ensures HoldersBelow(p, c, i + 1) == HoldersBelow(p, c, i) + (if c in p[i] then {i} else {})
  {
  }

  /** calculateColorDispersion: bottle indices per colour, then the sum of (size - 1). */
  method CalculateColorDispersion(state: Puzzle) returns (dispersion: int)
    ensures dispersion == ColorDispersion(state)
  {
    var colorPositions: map<Color, set<int>> := map[];
    var order: seq<Color> := [];
    for i := 0 to |state|
      invariant PositionsOf(state, colorPositions, order, Flat(state[..i]), i, [])
    {
      colorPositions, order := AddBottlePositions(state, i, colorPositions, order);
      FlatPrefix(state, i);
    }
    assert state[..|state|] == state;
    DispersionFromPositions(state, colorPositions, order);
    dispersion := 0;
    for k := 0 to |order|
      invariant dispersion == DispersionOf(state, order[..k])
    {
      assert order[..k + 1][..k] == order[..k];
      dispersion := dispersion + |colorPositions[order[k]]| - 1;
    }
    assert order[..|order|] == order;
  }

  /** Once every bottle is recorded, each colour's set is the set of its holders. */
  lemma DispersionFromPositions(state: Puzzle, positions: map<Color, set<int>>, order: seq<Color>)
    requires PositionsOf(state, positions, order, Flat(state), |state|, [])
    ensures forall k :: 0 <= k < |order| ==> order[k] in positions && positions[order[k]] == Holders(state, order[k])
  {
    forall k | 0 <= k < |order|
      ensures order[k] in positions && positions[order[k]] == Holders(state, order[k])
    {
      var c := order[k];
      assert c in Flat(state);
    }
  }

  /** Recording bottle `i` for one more unit of colour `x`. */
  lemma PositionsStep(state: Puzzle, positions: map<Color, set<int>>, order: seq<Color>,
                      seen: seq<Color>, i: int, done: seq<Color>, x: Color,
                      positions': map<Color, set<int>>, order': seq<Color>)
    requires 0 <= i <= |state|
    requires PositionsOf(state, positions, order, seen, i, done)
    requires positions' == positions[x := (if x in positions then positions[x] else {}) + {i}]
    requires order' == if x in positions then order else order + [x]
    ensures PositionsOf(state, positions', order', seen + [x], i, done + [x])
  {
    DedupSnoc(seen, x);
    StepSets(state, positions, i, done, x, positions');
    assert forall c :: c in done + [x] <==> c in done || c == x;
  }

  /** The sets part of PositionsStep: only the set of colour `x` gains bottle `i`. */
  lemma StepSets(state: Puzzle, positions: map<Color, set<int>>, i: int, done: seq<Color>, x: Color,
                 positions': map<Color, set<int>>)
    requires 0 <= i <= |state|
    requires forall c, t :: c in positions ==>
      (t in positions[c] <==> t in HoldersBelow(state, c, i) || (t == i && c in done))
    requires forall c, t :: t in HoldersBelow(state, c, i) ==> c in positions
    requires positions' == positions[x := (if x in positions then positions[x] else {}) + {i}]
    ensures forall c, t :: c in positions' ==>
      (t in positions'[c] <==> t in HoldersBelow(state, c, i) || (t == i && c in done + [x]))
  {
    forall c, t | c in positions'
      ensures t in positions'[c] <==> t in HoldersBelow(state, c, i) || (t == i && c in done + [x])
    {
      assert c in done + [x] <==> c in done || c == x;
      if c != x {
        assert positions'[c] == positions[c];
      } else if x in positions {
        assert positions'[c] == positions[x] + {i};
      } else {
        assert positions'[c] == {i};
        assert t !in HoldersBelow(state, c, i);
      }
    }
  }

  /** The inner loop: record bottle `i` for each of its units' colours. */
  method AddBottlePositions(state: Puzzle, i: int, positions0: map<Color, set<int>>, order0: seq<Color>)
    returns (positions: map<Color, set<int>>, order: seq<Color>)
    requires 0 <= i < |state|
    requires PositionsOf(state, positions0, order0, Flat(state[..i]), i, [])
    ensures PositionsOf(state, positions, order, Flat(state[..i]) + state[i], i + 1, [])
  {
    positions, order := positions0, order0;
    var bottle := state[i];
    ghost var seen := Flat(state[..i]);
    assert bottle[..0] == [];
    for j := 0 to |bottle|
      invariant seen == Flat(state[..i]) + bottle[..j]
      invariant PositionsOf(state, positions, order, seen, i, bottle[..j])
    {
      var color := bottle[j];
      assert bottle[..j + 1] == bottle[..j] + [color];
      positions, order := RecordUnit(state, i, positions, order, seen, bottle[..j], color);
      seen := seen + [color];
    }
    assert bottle[..|bottle|] == bottle;
    PositionsNext(state, positions, order, seen, i);
  }

  /** One unit of colour `color` in bottle `i`: create the colour's set if needed, then add `i`. */
  method RecordUnit(state: Puzzle, i: int, positions0: map<Color, set<int>>, order0: seq<Color>,
                    ghost seen: seq<Color>, ghost done: seq<Color>, color: Color)
    returns (positions: map<Color, set<int>>, order: seq<Color>)
    requires 0 <= i < |state|
    requires PositionsOf(state, positions0, order0, seen, i, done)
    ensures PositionsOf(state, positions, order, seen + [color], i, done + [color])
  {
    positions, order := positions0, order0;
    if color !in positions {
      positions := positions[color := {}];
      order := order + [color];
    }
    positions := positions[color := positions[color] + {i}];
    assert positions == positions0[color := (if color in positions0 then positions0[color] else {}) + {i}];
    PositionsStep(state, positions0, order0, seen, i, done, color, positions, order);
  }

  /** heuristic: misplaced units, plus mixed bottles, plus dispersion. */
  function HeuristicValue(p: Puzzle): int {
    MisplacedColors(p) + IncompleteBottles(p) + ColorDispersion(p)
  }

  method Heuristic(state: Puzzle) returns (h: int)
    ensures h == HeuristicValue(state)
  {
    var misplaced := CountMisplacedColors(state);
    var incomplete := CountIncompleteBottles(state);
    var dispersion := CalculateColorDispersion(state);
    h := misplaced + incomplete + dispersion;
  }

  /**
   * The heuristic is never negative, and it is zero exactly when every
   * bottle holds one colour and every colour sits in one bottle; so a zero
   * heuristic marks a goal state.
   */
  lemma HeuristicZero(p: Puzzle)
    ensures HeuristicValue(p) >= 0
    ensures HeuristicValue(p) == 0 <==>
      AllMonochrome(p) && forall c :: c in Flat(p) ==> |Holders(p, c)| == 1
  {
    ColorDispersionZero(p);
  }

  // Small facts about the puzzle [[1], [1]], one colour split over two bottles.

  lemma SplitFlat(p: Puzzle)
    requires p == [[1], [1]]
    ensures Flat(p) == [1, 1]
  {
    assert p[..1][..0] == [] && p[..1] == [[1]];
    assert Flat(p[..1]) == [1];
  }

  lemma SplitDedup()
    ensures Dedup([1, 1]) == [1]
  {
    assert [1, 1][..1] == [1];
    assert [1][..0] == [];
  }

  lemma SplitHolders(p: Puzzle)
    requires p == [[1], [1]]
    ensures |Holders(p, 1)| == 2
  {
    assert Holders(p, 1) == {0, 1};
  }

  lemma SingleDispersion(p: Puzzle, c: Color)
    ensures DispersionOf(p, [c]) == |Holders(p, c)| - 1
  {
    assert [c][..0] == [];
  }

  /** A goal state can still have a positive heuristic: one colour split over two bottles. */
  lemma GoalWithPositiveHeuristic()
    ensures var p: Puzzle := [[1], [1]];
      AllMonochrome(p) && HeuristicValue(p) > 0
  {
    var p: Puzzle := [[1], [1]];
    SplitFlat(p);
    SplitDedup();
    SplitHolders(p);
    SingleDispersion(p, 1);
    assert AllMonochrome(p);
  }
}

/**
 * The move engine of the game (class LiquidMover). Its only field, the
 * bottle height, is fixed at construction, so it appears here as the
 * parameter `h` of every operation.
 *
 * Each operation whose source runs a loop is a method proved against a
 * specification function; the functions' own contracts state what the
 * engine promises.
 */
module Mover {
  import opened Puzzles

  /** The height LiquidMover uses when none is given. */
  const DefaultBottleHeight := 4

  /** Why a move was refused; each constructor stands for one error message of the source. */
  datatype MoveError =
    | InvalidIndex       // a bottle index outside the puzzle
    | SameBottle         // from == to
    | EmptySource        // nothing to pour
    | NonPositiveAmount  // amount <= 0
    | NoLiquidMovable    // moveLiquid: the legal amount is 0
    | CannotMove         // autoMoveLiquid: the legal amount is 0

  datatype Validation = Valid | Invalid(reason: MoveError)

  datatype MoveResult = Moved(newState: Puzzle, actualAmount: int) | Failed(error: MoveError)

  // ---------------------------------------------------------------------
  // validateMove
  // ---------------------------------------------------------------------

  /**
   * Structural validation of a pour request. A request is valid exactly
   * when both indices are in range, they differ, the source is not empty
   * and the amount is positive; the reason reported is the first failing
   * check in that order.
   */
  function ValidateMove(state: Puzzle, m: Move): (v: Validation)
    ensures v == Valid <==>
      InRange(state, m.from) && InRange(state, m.to) && m.from != m.to &&
      |state[m.from]| > 0 && m.amount > 0
    ensures v == Invalid(InvalidIndex) <==> !InRange(state, m.from) || !InRange(state, m.to)
    ensures v == Invalid(SameBottle) <==>
      InRange(state, m.from) && InRange(state, m.to) && m.from == m.to
    ensures v == Invalid(EmptySource) <==>
      InRange(state, m.from) && InRange(state, m.to) && m.from != m.to && |state[m.from]| == 0
    ensures v == Invalid(NonPositiveAmount) <==>
      InRange(state, m.from) && InRange(state, m.to) && m.from != m.to && |state[m.from]| > 0 && m.amount <= 0
    ensures v.Invalid? ==> v.reason in {InvalidIndex, SameBottle, EmptySource, NonPositiveAmount}
  {
    if !InRange(state, m.from) || !InRange(state, m.to) then Invalid(InvalidIndex)
    else if m.from == m.to then Invalid(SameBottle)
    else if |state[m.from]| == 0 then Invalid(EmptySource)
    else if m.amount <= 0 then Invalid(NonPositiveAmount)
    else Valid
  }

  // ---------------------------------------------------------------------
  // calculateActualMoveAmount
  // ---------------------------------------------------------------------

  /**
   * The amount a request may actually pour. It is positive exactly when the
   * request is positive, the source is not empty, the destination has room
   * and is empty or shows the source's top colour; a positive result is
   * then the least of the request, the source's top run and the free space.
   */
  function LegalAmount(state: Puzzle, h: int, m: Move): (k: int)
    requires InRange(state, m.from) && InRange(state, m.to)
    ensures k > 0 <==>
      m.amount > 0 && |state[m.from]| > 0 && |state[m.to]| < h &&
      (|state[m.to]| == 0 || Top(state[m.to]) == Top(state[m.from]))
    ensures k > 0 ==>
      k <= m.amount && k <= TopRun(state[m.from]) && k <= h - |state[m.to]|
    ensures k > 0 ==>
      k == m.amount || k == TopRun(state[m.from]) || k == h - |state[m.to]|
    ensures k < 0 ==> k == m.amount && |state[m.to]| < h
    ensures m.amount >= 0 ==> k >= 0
  {
    var src, dst := state[m.from], state[m.to];
    if |src| == 0 then 0
    else if h - |dst| <= 0 then 0
    else if |dst| > 0 && Top(dst) != Top(src) then 0
    else Min(m.amount, Min(TopRun(src), h - |dst|))
  }

  /** The source's loop: counts the top run downwards from the top unit. */
  method CalculateActualMoveAmount(state: Puzzle, h: int, m: Move) returns (k: int)
    requires InRange(state, m.from) && InRange(state, m.to)
    ensures k == LegalAmount(state, h, m)
  {
    var src, dst := state[m.from], state[m.to];
    if |src| == 0 {
      return 0;
    }
    var topColor := src[|src| - 1];
    var count := 0;
    var i := |src| - 1;
    while i >= 0
      invariant -1 <= i < |src|
      invariant count == |src| - 1 - i
      invariant forall j :: i < j < |src| ==> src[j] == topColor
      decreases i + 1
    {
      if src[i] == topColor {
        count := count + 1;
        i := i - 1;
      } else {
        break;
      }
    }
    TopRunUnique(src, count);
    var space := h - |dst|;
    if space <= 0 {
      return 0;
    }
    if |dst| > 0 && dst[|dst| - 1] != topColor {
      return 0;
    }
    k := Min(m.amount, Min(count, space));
  }

  // ---------------------------------------------------------------------
  // executeMove, moveLiquid
  // ---------------------------------------------------------------------

  /** Pours on a copy of the state (splice the top units off, push them on). */
  method ExecuteMove(state: Puzzle, m: Move) returns (r: Puzzle)
    requires InRange(state, m.from) && InRange(state, m.to) && m.from != m.to
    requires 0 <= m.amount <= |state[m.from]|
    ensures r == Pour(state, m.from, m.to, m.amount)
  {
    var newState := state;
    var src := newState[m.from];
    var moving := src[|src| - m.amount..];
    newState := newState[m.from := src[..|src| - m.amount]];
    newState := newState[m.to := newState[m.to] + moving];
    r := newState;
  }

  /**
   * What moveLiquid returns. It succeeds exactly when the request is
   * structurally valid and its legal amount is positive; it then pours
   * between 1 and the requested number of units, keeps the bottle count
   * and the colours, and keeps a puzzle within height. A structural failure
   * reports its reason; a valid request with nothing to pour reports
   * NoLiquidMovable.
   */
  function MoveOutcome(state: Puzzle, h: int, m: Move): (r: MoveResult)
    ensures r.Moved? <==> ValidateMove(state, m) == Valid && LegalAmount(state, h, m) > 0
    ensures ValidateMove(state, m).Invalid? ==> r == Failed(ValidateMove(state, m).reason)
    ensures ValidateMove(state, m) == Valid && r.Failed? ==> r.error == NoLiquidMovable
    ensures r.Moved? ==>
      r.actualAmount == LegalAmount(state, h, m) && 1 <= r.actualAmount <= m.amount &&
      r.newState == Pour(state, m.from, m.to, r.actualAmount)
    ensures r.Moved? ==> |r.newState| == |state| && ColorBag(r.newState) == ColorBag(state)
    ensures r.Moved? && WithinHeight(state, h) ==> WithinHeight(r.newState, h)
  {
    var v := ValidateMove(state, m);
    if v.Invalid? then Failed(v.reason)
    else
      var k := LegalAmount(state, h, m);
      if k == 0 then Failed(NoLiquidMovable)
      else
        PourWithinHeightIfValid(state, m.from, m.to, k, h);
        Moved(Pour(state, m.from, m.to, k), k)
  }

  lemma PourWithinHeightIfValid(p: Puzzle, from: int, to: int, k: int, h: int)
    requires InRange(p, from) && InRange(p, to) && from != to
    requires 0 <= k <= |p[from]| && |p[to]| + k <= h
    ensures WithinHeight(p, h) ==> WithinHeight(Pour(p, from, to, k), h)
  {
    if WithinHeight(p, h) {
      PourWithinHeight(p, from, to, k, h);
    }
  }

  /** moveLiquid: validate, compute the legal amount, pour on a copy. */
  method MoveLiquid(state: Puzzle, h: int, m: Move) returns (res: MoveResult)
    ensures res == MoveOutcome(state, h, m)
  {
    var v := ValidateMove(state, m);
    if v.Invalid? {
      return Failed(v.reason);
    }
    var actualAmount := CalculateActualMoveAmount(state, h, m);
    if actualAmount == 0 {
      return Failed(NoLiquidMovable);
    }
    var newState := ExecuteMove(state, Move(m.from, m.to, actualAmount));
    res := Moved(newState, actualAmount);
  }

  // ---------------------------------------------------------------------
  // autoMoveLiquid
  // ---------------------------------------------------------------------

  /**
   * What autoMoveLiquid returns: it asks for `h` units, so a successful
   * pour moves min(top run, free space), the largest amount any request
   * could pour. Bad indices, an empty source and a zero legal amount are
   * refused before moveLiquid is asked.
   */
  function AutoMoveOutcome(state: Puzzle, h: int, from: int, to: int): (r: MoveResult)
    ensures !InRange(state, from) || !InRange(state, to) ==> r == Failed(InvalidIndex)
    ensures InRange(state, from) && InRange(state, to) && |state[from]| == 0 ==>
      r == Failed(EmptySource)
    ensures InRange(state, from) && InRange(state, to) && |state[from]| > 0 ==>
      var k := LegalAmount(state, h, Move(from, to, h));
      r == if k == 0 then Failed(CannotMove) else MoveOutcome(state, h, Move(from, to, k))
    ensures r.Moved? ==> r.actualAmount == Min(TopRun(state[from]), h - |state[to]|)
    ensures r.Moved? ==> forall a :: LegalAmount(state, h, Move(from, to, a)) <= r.actualAmount
  {
    if !InRange(state, from) || !InRange(state, to) then Failed(InvalidIndex)
    else if |state[from]| == 0 then Failed(EmptySource)
    else
      var k := LegalAmount(state, h, Move(from, to, h));
      if k == 0 then Failed(CannotMove)
      else
        assert 0 < k <= TopRun(state[from]);
        MoveOutcome(state, h, Move(from, to, k))
  }

  method AutoMoveLiquid(state: Puzzle, h: int, from: int, to: int) returns (res: MoveResult)
    ensures res == AutoMoveOutcome(state, h, from, to)
  {
    if !InRange(state, from) || !InRange(state, to) {
      return Failed(InvalidIndex);
    }
    if |state[from]| == 0 {
      return Failed(EmptySource);
    }
    var maxAmount := CalculateActualMoveAmount(state, h, Move(from, to, h));
    if maxAmount == 0 {
      return Failed(CannotMove);
    }
    res := MoveLiquid(state, h, Move(from, to, maxAmount));
  }

  // ---------------------------------------------------------------------
  // findPossibleMoves, findAllPossibleMoves
  // ---------------------------------------------------------------------

  /** Each move of `r` leaves `from` for another bottle below `n`, carrying its positive full-height legal amount. */
  predicate ListedSound(state: Puzzle, h: int, from: int, n: int, r: seq<Move>)
    requires InRange(state, from) && 0 <= n <= |state|
  {
    forall i :: 0 <= i < |r| ==>
      r[i].from == from && 0 <= r[i].to < n && r[i].to != from &&
      r[i].amount == LegalAmount(state, h, Move(from, r[i].to, h)) && r[i].amount > 0
  }

  /** Every destination below `n` with a positive full-height legal amount is in `r`. */
  predicate ListedComplete(state: Puzzle, h: int, from: int, n: int, r: seq<Move>)
    requires InRange(state, from) && 0 <= n <= |state|
  {
    forall t :: 0 <= t < n && t != from && LegalAmount(state, h, Move(from, t, h)) > 0 ==>
      Move(from, t, LegalAmount(state, h, Move(from, t, h))) in r
  }

  /** Destinations strictly ascending. */
  predicate AscendingTargets(r: seq<Move>) {
    forall i, j :: 0 <= i < j < |r| ==> r[i].to < r[j].to
  }

  /** The moves from `from` to the destinations below `n`, destination by destination. */
  function MovesFrom(state: Puzzle, h: int, from: int, n: int): seq<Move>
    requires InRange(state, from) && 0 <= n <= |state|
    decreases n
  {
    if n == 0 then []
    else
      var t := n - 1;
      var k := LegalAmount(state, h, Move(from, t, h));
      MovesFrom(state, h, from, n - 1) + (if t != from && k > 0 then [Move(from, t, k)] else [])
  }

  /**
   * MovesFrom lists one move per destination below `n` other than `from`
   * whose legal amount for a full-height request is positive, carrying
   * that amount, with destinations strictly ascending. No other move is
   * listed.
   */
  lemma {:induction false} MovesFromExact(state: Puzzle, h: int, from: int, n: int)
    requires InRange(state, from) && 0 <= n <= |state|
    ensures ListedSound(state, h, from, n, MovesFrom(state, h, from, n))
    ensures ListedComplete(state, h, from, n, MovesFrom(state, h, from, n))
    ensures AscendingTargets(MovesFrom(state, h, from, n))
    decreases n
  {
    if n > 0 {
      var earlier := MovesFrom(state, h, from, n - 1);
      var k := LegalAmount(state, h, Move(from, n - 1, h));
      var extra := if n - 1 != from && k > 0 then [Move(from, n - 1, k)] else [];
      MovesFromExact(state, h, from, n - 1);
      MovesFromExtend(state, h, from, n, earlier, k, extra);
    }
  }

  lemma MovesFromExtend(state: Puzzle, h: int, from: int, n: int, earlier: seq<Move>, k: int, extra: seq<Move>)
    requires InRange(state, from) && 0 < n <= |state|
    requires ListedSound(state, h, from, n - 1, earlier)
    requires ListedComplete(state, h, from, n - 1, earlier)
    requires AscendingTargets(earlier)
    requires k == LegalAmount(state, h, Move(from, n - 1, h))
    requires extra == if n - 1 != from && k > 0 then [Move(from, n - 1, k)] else []
    ensures ListedSound(state, h, from, n, earlier + extra)
    ensures ListedComplete(state, h, from, n, earlier + extra)
    ensures AscendingTargets(earlier + extra)
  {
    ExtendSound(state, h, from, n, earlier, k, extra);
    ExtendComplete(state, h, from, n, earlier, k, extra);
    ExtendAscending(from, n, earlier, k, extra);
  }

  lemma ExtendSound(state: Puzzle, h: int, from: int, n: int, earlier: seq<Move>, k: int, extra: seq<Move>)
    requires InRange(state, from) && 0 < n <= |state|
    requires ListedSound(state, h, from, n - 1, earlier)
    requires k == LegalAmount(state, h, Move(from, n - 1, h))
    requires extra == if n - 1 != from && k > 0 then [Move(from, n - 1, k)] else []
    ensures ListedSound(state, h, from, n, earlier + extra)
  {
  }

  lemma ExtendComplete(state: Puzzle, h: int, from: int, n: int, earlier: seq<Move>, k: int, extra: seq<Move>)
    requires InRange(state, from) && 0 < n <= |state|
    requires ListedComplete(state, h, from, n - 1, earlier)
    requires k == LegalAmount(state, h, Move(from, n - 1, h))
    requires extra == if n - 1 != from && k > 0 then [Move(from, n - 1, k)] else []
    ensures ListedComplete(state, h, from, n, earlier + extra)
  {
  }

  lemma ExtendAscending(from: int, n: int, earlier: seq<Move>, k: int, extra: seq<Move>)
    requires forall i :: 0 <= i < |earlier| ==> earlier[i].to < n - 1
    requires AscendingTargets(earlier)
    requires extra == if n - 1 != from && k > 0 then [Move(from, n - 1, k)] else []
    ensures AscendingTargets(earlier + extra)
  {
  }

  /** The moves findPossibleMoves lists: none for a bad index or an empty source. */
  function PossibleMoves(state: Puzzle, h: int, from: int): (r: seq<Move>)
    ensures !InRange(state, from) || |state[from]| == 0 ==> r == []
  {
    if !InRange(state, from) then []
    else
      var r := MovesFrom(state, h, from, |state|);
      MovesFromExact(state, h, from, |state|);
      assert |r| > 0 ==> r[0].amount > 0;
      r
  }

  method FindPossibleMoves(state: Puzzle, h: int, from: int) returns (moves: seq<Move>)
    ensures moves == PossibleMoves(state, h, from)
  {
    if from < 0 || from >= |state| || |state[from]| == 0 {
      return [];
    }
    moves := ScanTargets(state, h, from);
    PossibleMovesExact(state, h, from);
  }

  /** The loop of findPossibleMoves over every destination. */
  method ScanTargets(state: Puzzle, h: int, from: int) returns (moves: seq<Move>)
    requires InRange(state, from)
    ensures moves == MovesFrom(state, h, from, |state|)
  {
    moves := [];
    for to := 0 to |state|
      invariant moves == MovesFrom(state, h, from, to)
    {
      moves := ConsiderTarget(state, h, from, to, moves);
    }
  }

  /** One destination of findPossibleMoves: list it when the full-height legal amount is positive. */
  method ConsiderTarget(state: Puzzle, h: int, from: int, to: int, moves0: seq<Move>) returns (moves: seq<Move>)
    requires InRange(state, from) && 0 <= to < |state|
    requires moves0 == MovesFrom(state, h, from, to)
    ensures moves == MovesFrom(state, h, from, to + 1)
  {
    moves := moves0;
    MovesFromStep(state, h, from, to);
    if from == to {
      return;
    }
    var maxAmount := CalculateActualMoveAmount(state, h, Move(from, to, h));
    if maxAmount > 0 {
      moves := moves + [Move(from, to, maxAmount)];
    }
  }

  /** findPossibleMoves of a source in range: exactly its legal full-height pours, ascending. */
  lemma PossibleMovesExact(state: Puzzle, h: int, from: int)
    requires InRange(state, from)
    ensures PossibleMoves(state, h, from) == MovesFrom(state, h, from, |state|)
    ensures ListedSound(state, h, from, |state|, PossibleMoves(state, h, from))
    ensures ListedComplete(state, h, from, |state|, PossibleMoves(state, h, from))
    ensures AscendingTargets(PossibleMoves(state, h, from))
  {
    MovesFromExact(state, h, from, |state|);
  }

  lemma MovesFromStep(state: Puzzle, h: int, from: int, t: int)
    requires InRange(state, from) && 0 <= t < |state|
    ensures var k := LegalAmount(state, h, Move(from, t, h));
      MovesFrom(state, h, from, t + 1) ==
        MovesFrom(state, h, from, t) + (if t != from && k > 0 then [Move(from, t, k)] else [])
  {
  }

  /**
   * The moves of all sources below `n`, source by source: each is a legal
   * full-height pour carrying its legal amount, every such pour is listed,
   * and the list is strictly ordered by source, then destination.
   */
  function AllMovesBelow(state: Puzzle, h: int, n: int): (r: seq<Move>)
    requires 0 <= n <= |state|
    ensures forall i :: 0 <= i < |r| ==>
      0 <= r[i].from < n && InRange(state, r[i].to) && r[i].to != r[i].from &&
      r[i].amount == LegalAmount(state, h, Move(r[i].from, r[i].to, h)) && r[i].amount > 0
    ensures forall f, t ::
      0 <= f < n && InRange(state, t) && t != f && LegalAmount(state, h, Move(f, t, h)) > 0 ==>
      Move(f, t, LegalAmount(state, h, Move(f, t, h))) in r
    ensures forall i, j :: 0 <= i < j < |r| ==>
      r[i].from < r[j].from || (r[i].from == r[j].from && r[i].to < r[j].to)
    decreases n
  {
    if n == 0 then []
    else
      var earlier, last := AllMovesBelow(state, h, n - 1), PossibleMoves(state, h, n - 1);
      AllMovesComplete(state, h, n, earlier, last);
      AllMovesSound(state, h, n, earlier, last);
      earlier + last
  }

  lemma AllMovesSound(state: Puzzle, h: int, n: int, earlier: seq<Move>, last: seq<Move>)
    requires 0 < n <= |state|
    requires forall i :: 0 <= i < |earlier| ==>
      0 <= earlier[i].from < n - 1 && InRange(state, earlier[i].to) &&
      earlier[i].to != earlier[i].from &&
      earlier[i].amount == LegalAmount(state, h, Move(earlier[i].from, earlier[i].to, h)) &&
      earlier[i].amount > 0
    requires forall i, j :: 0 <= i < j < |earlier| ==>
      earlier[i].from < earlier[j].from ||
      (earlier[i].from == earlier[j].from && earlier[i].to < earlier[j].to)
    requires last == PossibleMoves(state, h, n - 1)
    ensures forall i :: 0 <= i < |earlier + last| ==>
      0 <= (earlier + last)[i].from < n && InRange(state, (earlier + last)[i].to) &&
      (earlier + last)[i].to != (earlier + last)[i].from &&
      (earlier + last)[i].amount ==
        LegalAmount(state, h, Move((earlier + last)[i].from, (earlier + last)[i].to, h)) &&
      (earlier + last)[i].amount > 0
    ensures forall i, j :: 0 <= i < j < |earlier + last| ==>
      (earlier + last)[i].from < (earlier + last)[j].from ||
      ((earlier + last)[i].from == (earlier + last)[j].from &&
       (earlier + last)[i].to < (earlier + last)[j].to)
  {
    PossibleMovesExact(state, h, n - 1);
    var r := earlier + last;
    assert forall i :: 0 <= i < |last| ==> last[i].from == n - 1;
    forall i | 0 <= i < |r|
      ensures 0 <= r[i].from < n && InRange(state, r[i].to) && r[i].to != r[i].from &&
        r[i].amount == LegalAmount(state, h, Move(r[i].from, r[i].to, h)) && r[i].amount > 0
    {
      if i >= |earlier| {
        assert r[i] == last[i - |earlier|];
      }
    }
    forall i, j | 0 <= i < j < |r|
      ensures r[i].from < r[j].from || (r[i].from == r[j].from && r[i].to < r[j].to)
    {
      if j < |earlier| {
        assert r[i] == earlier[i] && r[j] == earlier[j];
      } else if i < |earlier| {
        assert r[i] == earlier[i] && r[j] == last[j - |earlier|];
      } else {
        assert r[i] == last[i - |earlier|] && r[j] == last[j - |earlier|];
      }
    }
  }

  lemma AllMovesComplete(state: Puzzle, h: int, n: int, earlier: seq<Move>, last: seq<Move>)
    requires 0 < n <= |state|
    requires forall f, t ::
      0 <= f < n - 1 && InRange(state, t) && t != f && LegalAmount(state, h, Move(f, t, h)) > 0 ==>
      Move(f, t, LegalAmount(state, h, Move(f, t, h))) in earlier
    requires last == PossibleMoves(state, h, n - 1)
    ensures forall f, t ::
      0 <= f < n && InRange(state, t) && t != f && LegalAmount(state, h, Move(f, t, h)) > 0 ==>
      Move(f, t, LegalAmount(state, h, Move(f, t, h))) in earlier + last
  {
    PossibleMovesExact(state, h, n - 1);
    forall f, t | 0 <= f < n && InRange(state, t) && t != f && LegalAmount(state, h, Move(f, t, h)) > 0
      ensures Move(f, t, LegalAmount(state, h, Move(f, t, h))) in earlier + last
    {
      if f == n - 1 {
        assert Move(f, t, LegalAmount(state, h, Move(f, t, h))) in last;
      } else {
        assert Move(f, t, LegalAmount(state, h, Move(f, t, h))) in earlier;
      }
    }
  }

  /** The moves findAllPossibleMoves lists. */
  function AllPossibleMoves(state: Puzzle, h: int): seq<Move> {
    AllMovesBelow(state, h, |state|)
  }

  method FindAllPossibleMoves(state: Puzzle, h: int) returns (allMoves: seq<Move>)
    ensures allMoves == AllPossibleMoves(state, h)
  {
    allMoves := [];
    for from := 0 to |state|
      invariant allMoves == AllMovesBelow(state, h, from)
    {
      var moves := FindPossibleMoves(state, h, from);
      allMoves := allMoves + moves;
    }
  }

  /**
   * A full-height request that has a positive legal amount succeeds when
   * that amount is asked for explicitly, and pours all of it.
   */
  lemma LegalAmountSucceeds(state: Puzzle, h: int, from: int, to: int)
    requires InRange(state, from) && InRange(state, to) && from != to
    requires LegalAmount(state, h, Move(from, to, h)) > 0
    ensures var k := LegalAmount(state, h, Move(from, to, h));
      MoveOutcome(state, h, Move(from, to, k)) == Moved(Pour(state, from, to, k), k)
  {
  }

  /** Every move findPossibleMoves lists is accepted by moveLiquid in full. */
  lemma ListedMoveSucceeds(state: Puzzle, h: int, from: int, m: Move)
    requires m in PossibleMoves(state, h, from)
    ensures m.from == from && InRange(state, m.from) && InRange(state, m.to) && m.to != from
    ensures 0 < m.amount <= |state[m.from]|
    ensures MoveOutcome(state, h, m) == Moved(Pour(state, m.from, m.to, m.amount), m.amount)
  {
    assert InRange(state, from);
    PossibleMovesExact(state, h, from);
    LegalAmountSucceeds(state, h, m.from, m.to);
  }

  /** Every move findAllPossibleMoves lists is accepted by moveLiquid in full. */
  lemma AllListedMoveSucceeds(state: Puzzle, h: int, m: Move)
    requires m in AllPossibleMoves(state, h)
    ensures InRange(state, m.from) && InRange(state, m.to) && m.from != m.to && 0 < m.amount <= |state[m.from]|
    ensures MoveOutcome(state, h, m) == Moved(Pour(state, m.from, m.to, m.amount), m.amount)
  {
    LegalAmountSucceeds(state, h, m.from, m.to);
  }

  /**
   * autoMoveLiquid succeeds on a pair of bottles exactly when
   * findPossibleMoves lists a move between them, and it then performs that
   * move.
   */
  lemma AutoMoveIsListed(state: Puzzle, h: int, from: int, to: int)
    requires InRange(state, from) && InRange(state, to)
    ensures var m := Move(from, to, LegalAmount(state, h, Move(from, to, h)));
      (AutoMoveOutcome(state, h, from, to).Moved? <==> m in PossibleMoves(state, h, from)) &&
      (AutoMoveOutcome(state, h, from, to).Moved? ==>
        AutoMoveOutcome(state, h, from, to) == MoveOutcome(state, h, m))
  {
    PossibleMovesExact(state, h, from);
    var m := Move(from, to, LegalAmount(state, h, Move(from, to, h)));
    if m in PossibleMoves(state, h, from) {
      var ms := PossibleMoves(state, h, from);
      var i :| 0 <= i < |ms| && ms[i] == m;
      assert ms[i].to != from;
      LegalAmountSucceeds(state, h, from, to);
    }
  }

  // ---------------------------------------------------------------------
  // isGameCompleted
  // ---------------------------------------------------------------------

  /** Early-exit scan: true exactly when every bottle is empty or complete. */
  method IsGameCompleted(state: Puzzle, h: int) returns (done: bool)
    ensures done == Solved(state, h)
  {
    for i := 0 to |state|
      invariant forall j :: 0 <= j < i ==> |state[j]| == 0 || Complete(state[j], h)
    {
      var bottle := state[i];
      if |bottle| == 0 {
        continue;
      }
      if |bottle| != h {
        return false;
      }
      if !Monochrome(bottle) {
        return false;
      }
    }
    return true;
  }

  // ---------------------------------------------------------------------
  // getColorGroups, calculateGameScore, evaluateMove
  // ---------------------------------------------------------------------

  /** The score of an empty bottle. */
  const EmptyBottleBonus := 1

  /** The extra score of a full bottle that is a single group. */
  const CompleteBottleBonus := 20

  /** A run of one colour inside a bottle, listed bottom to top. */
  datatype ColorGroup = ColorGroup(color: Color, length: nat)

  /** The bottle that a list of groups describes. */
  function Expand(gs: seq<ColorGroup>): seq<Color>
    decreases |gs|
  {
    if |gs| == 0 then []
    else Expand(gs[..|gs| - 1]) + Repeat(gs[|gs| - 1].color, gs[|gs| - 1].length)
  }

  function SumLengths(gs: seq<ColorGroup>): nat
    decreases |gs|
  {
    if |gs| == 0 then 0 else SumLengths(gs[..|gs| - 1]) + gs[|gs| - 1].length
  }

  function SquareSum(gs: seq<ColorGroup>): nat
    decreases |gs|
  {
    if |gs| == 0 then 0
    else SquareSum(gs[..|gs| - 1]) + gs[|gs| - 1].length * gs[|gs| - 1].length
  }

  /**
   * The run-length encoding of a bottle, bottom to top: every group is
   * non-empty and neighbouring groups have different colours, so the groups
   * are the maximal runs (ColorGroupsExpand: expanding them gives the bottle
   * back).
   */
  function ColorGroups(b: Bottle): (gs: seq<ColorGroup>)
    ensures forall k :: 0 <= k < |gs| ==> gs[k].length >= 1
    ensures |b| == 0 ==> gs == []
    ensures |b| > 0 ==> |gs| > 0 && gs[0].color == b[0] && gs[|gs| - 1].color == b[|b| - 1]
    decreases |b|
  {
    if |b| == 0 then []
    else
      var g := ColorGroups(b[..|b| - 1]);
      var x := b[|b| - 1];
      if |g| > 0 && g[|g| - 1].color == x then
        g[..|g| - 1] + [ColorGroup(x, g[|g| - 1].length + 1)]
      else
        g + [ColorGroup(x, 1)]
  }

  /** Lengthening the top group by one adds one unit of its colour on top. */
  lemma ExpandGrow(pre: seq<ColorGroup>, c: Color, l: nat)
    ensures Expand(pre + [ColorGroup(c, l + 1)]) == Expand(pre + [ColorGroup(c, l)]) + [c]
  {
    assert (pre + [ColorGroup(c, l + 1)])[..|pre|] == pre;
    assert (pre + [ColorGroup(c, l)])[..|pre|] == pre;
  }

  /** A new group of one unit adds that unit on top. */
  lemma ExpandPush(gs: seq<ColorGroup>, c: Color)
    ensures Expand(gs + [ColorGroup(c, 1)]) == Expand(gs) + [c]
  {
    assert (gs + [ColorGroup(c, 1)])[..|gs|] == gs;
    assert Repeat(c, 1) == [c];
  }

  /** Neighbouring groups have different colours. */
  predicate Alternating(gs: seq<ColorGroup>) {
    forall k :: 0 < k < |gs| ==> gs[k - 1].color != gs[k].color
  }

  lemma MaximalStep(prefix: Bottle, x: Color)
    requires Alternating(ColorGroups(prefix))
    ensures Alternating(ColorGroups(prefix + [x]))
  {
    var b := prefix + [x];
    assert b[..|b| - 1] == prefix;
    var g, gs := ColorGroups(prefix), ColorGroups(b);
    if |g| > 0 && g[|g| - 1].color == x {
      var l := g[|g| - 1].length;
      assert gs == g[..|g| - 1] + [ColorGroup(x, l + 1)];
      forall k | 0 < k < |gs|
        ensures gs[k - 1].color != gs[k].color
      {
        assert gs[k - 1] == g[k - 1] && gs[k].color == g[k].color;
      }
    } else {
      assert gs == g + [ColorGroup(x, 1)];
      forall k | 0 < k < |gs|
        ensures gs[k - 1].color != gs[k].color
      {
        if k < |g| {
          assert gs[k - 1] == g[k - 1] && gs[k] == g[k];
        } else {
          assert gs[k - 1] == g[|g| - 1] && gs[k].color == x;
        }
      }
    }
  }

  /** The groups are the maximal runs: neighbouring groups differ in colour. */
  lemma {:induction false} ColorGroupsMaximal(b: Bottle)
    ensures Alternating(ColorGroups(b))
    decreases |b|
  {
    if |b| > 0 {
      ColorGroupsMaximal(b[..|b| - 1]);
      MaximalStep(b[..|b| - 1], b[|b| - 1]);
      SplitLast(b);
    }
  }

  /** Adding a unit on top keeps the groups expanding to the bottle. */
  lemma ExpandStep(prefix: Bottle, x: Color)
    requires Expand(ColorGroups(prefix)) == prefix
    ensures Expand(ColorGroups(prefix + [x])) == prefix + [x]
  {
    var b := prefix + [x];
    assert b[..|b| - 1] == prefix;
    var g := ColorGroups(prefix);
    if |g| > 0 && g[|g| - 1].color == x {
      var pre, l := g[..|g| - 1], g[|g| - 1].length;
      assert g == pre + [ColorGroup(x, l)];
      ExpandGrow(pre, x, l);
    } else {
      ExpandPush(g, x);
    }
  }

  /** The groups describe the bottle: expanding them gives it back. */
  lemma {:induction false} ColorGroupsExpand(b: Bottle)
    ensures Expand(ColorGroups(b)) == b
    decreases |b|
  {
    if |b| > 0 {
      ColorGroupsExpand(b[..|b| - 1]);
      ExpandStep(b[..|b| - 1], b[|b| - 1]);
      SplitLast(b);
    }
  }

  /** The lengths of a bottle's groups add up to its height. */
  lemma {:induction false} ExpandLength(gs: seq<ColorGroup>)
    ensures |Expand(gs)| == SumLengths(gs)
    decreases |gs|
  {
    if |gs| > 0 {
      ExpandLength(gs[..|gs| - 1]);
    }
  }

  lemma GroupLengthsSum(b: Bottle)
    ensures SumLengths(ColorGroups(b)) == |b|
  {
    ExpandLength(ColorGroups(b));
    ColorGroupsExpand(b);
  }

  lemma MonochromeSnoc(b: Bottle, x: Color)
    requires |b| > 0
    ensures Monochrome(b + [x]) <==> Monochrome(b) && x == b[|b| - 1]
  {
    var c := b + [x];
    assert c[0] == b[0] && c[|b| - 1] == b[|b| - 1] && c[|b|] == x;
    assert forall i :: 0 <= i < |b| ==> b[i] == c[i];
  }

  /** A bottle is one group exactly when it is non-empty and monochrome. */
  lemma {:induction false} SingleGroup(b: Bottle)
    ensures |ColorGroups(b)| == 1 <==> |b| > 0 && Monochrome(b)
    decreases |b|
  {
    if |b| > 0 {
      var prefix := b[..|b| - 1];
      var x := b[|b| - 1];
      assert b == prefix + [x];
      var g := ColorGroups(prefix);
      if |prefix| == 0 {
        assert ColorGroups(b) == [ColorGroup(x, 1)];
      } else {
        SingleGroup(prefix);
        MonochromeSnoc(prefix, x);
        var top := prefix[|prefix| - 1];
        assert g[|g| - 1].color == top;
        if top == x {
          assert |ColorGroups(b)| == |g|;
        } else {
          assert |ColorGroups(b)| == |g| + 1;
        }
      }
    }
  }

  lemma {:induction false} SquareSumBound(gs: seq<ColorGroup>)
    ensures SquareSum(gs) <= SumLengths(gs) * SumLengths(gs)
    decreases |gs|
  {
    if |gs| > 0 {
      var rest := gs[..|gs| - 1];
      SquareSumBound(rest);
      var s, l := SumLengths(rest), gs[|gs| - 1].length;
      assert (s + l) * (s + l) == s * s + 2 * s * l + l * l;
      assert s * l >= 0;
    }
  }

  /** One bottle's share of calculateGameScore. */
  function BottleScore(b: Bottle, h: int): int {
    if |b| == 0 then EmptyBottleBonus
    else
      var gs := ColorGroups(b);
      SquareSum(gs) + (if |b| == h && |gs| == 1 then CompleteBottleBonus else 0)
  }

  /** calculateGameScore: the bottles' scores added up. */
  function GameScore(p: Puzzle, h: int): int
    decreases |p|
  {
    if |p| == 0 then 0 else GameScore(p[..|p| - 1], h) + BottleScore(p[|p| - 1], h)
  }

  lemma SquareMono(a: nat, b: nat)
    requires a <= b
    ensures a * a <= b * b
    ensures a < b ==> a * a < b * b
  {
    assert a * a <= a * b <= b * b;
    if a < b {
      assert a * a <= a * b < b * b;
    }
  }

  /**
   * Higher is closer to solved: no bottle within height scores more than
   * h*h + 20, and exactly the complete bottles reach that score.
   */
  lemma BottleScoreBound(b: Bottle, h: int)
    requires 1 <= h && |b| <= h
    ensures BottleScore(b, h) <= h * h + CompleteBottleBonus
    ensures BottleScore(b, h) == h * h + CompleteBottleBonus <==> Complete(b, h)
  {
    SquareMono(|b|, h);
    if |b| > 0 {
      var gs := ColorGroups(b);
      GroupLengthsSum(b);
      SquareSumBound(gs);
      SingleGroup(b);
      if |gs| == 1 {
        assert gs[..0] == [];
        assert SquareSum(gs) == |b| * |b|;
      }
    } else {
      assert h * h >= 1;
    }
  }

  /** How ColorGroups grows by one unit: the top group lengthens or a new one starts. */
  lemma ColorGroupsSnoc(b: Bottle, i: int)
    requires 0 < i < |b|
    ensures var g := ColorGroups(b[..i]);
      ColorGroups(b[..i + 1]) ==
        if g[|g| - 1].color == b[i] then g[..|g| - 1] + [ColorGroup(b[i], g[|g| - 1].length + 1)]
        else g + [ColorGroup(b[i], 1)]
  {
    assert b[..i + 1][..i] == b[..i];
  }

  method GetColorGroups(b: Bottle) returns (groups: seq<ColorGroup>)
    ensures groups == ColorGroups(b)
  {
    if |b| == 0 {
      return [];
    }
    groups := [];
    var currentColor := b[0];
    var currentLength: nat := 1;
    assert b[..1][..0] == [];
    for i := 1 to |b|
      invariant groups + [ColorGroup(currentColor, currentLength)] == ColorGroups(b[..i])
    {
      groups, currentColor, currentLength := ExtendGroup(b, i, groups, currentColor, currentLength);
    }
    groups := groups + [ColorGroup(currentColor, currentLength)];
    assert b[..|b|] == b;
  }

  /** One unit of getColorGroups: lengthen the current group or close it and start a new one. */
  method ExtendGroup(b: Bottle, i: int, groups0: seq<ColorGroup>, color0: Color, length0: nat)
    returns (groups: seq<ColorGroup>, currentColor: Color, currentLength: nat)
    requires 0 < i < |b|
    requires groups0 + [ColorGroup(color0, length0)] == ColorGroups(b[..i])
    ensures groups + [ColorGroup(currentColor, currentLength)] == ColorGroups(b[..i + 1])
  {
    ColorGroupsSnoc(b, i);
    var g := ColorGroups(b[..i]);
    assert g[..|g| - 1] == groups0 && g[|g| - 1] == ColorGroup(color0, length0);
    if b[i] == color0 {
      groups, currentColor, currentLength := groups0, color0, length0 + 1;
    } else {
      groups, currentColor, currentLength := groups0 + [ColorGroup(color0, length0)], b[i], 1;
    }
  }

  method CalculateGameScore(state: Puzzle, h: int) returns (score: int)
    ensures score == GameScore(state, h)
  {
    score := 0;
    for i := 0 to |state|
      invariant score == GameScore(state[..i], h)
    {
      assert state[..i + 1][..i] == state[..i];
      var bottle := state[i];
      if |bottle| == 0 {
        score := score + EmptyBottleBonus;
        continue;
      }
      var colorGroups := GetColorGroups(bottle);
      score := score + SquareSum(colorGroups);
      if |bottle| == h && |colorGroups| == 1 {
        score := score + CompleteBottleBonus;
      }
    }
    assert state[..|state|] == state;
  }

  /** evaluateMove: -1 for a refused move, otherwise the change in score. */
  method EvaluateMove(state: Puzzle, h: int, m: Move) returns (delta: int)
    ensures MoveOutcome(state, h, m).Failed? ==> delta == -1
    ensures MoveOutcome(state, h, m).Moved? ==>
      delta == GameScore(MoveOutcome(state, h, m).newState, h) - GameScore(state, h)
  {
    var result := MoveLiquid(state, h, m);
    if result.Failed? {
      return -1;
    }
    var beforeScore := CalculateGameScore(state, h);
    var afterScore := CalculateGameScore(result.newState, h);
    delta := afterScore - beforeScore;
  }

  // ---------------------------------------------------------------------
  // Worked cases
  // ---------------------------------------------------------------------

  /** A run of 3 onto a bottle with room for 3, asking for 5, pours 3. */
  lemma CappedPourExample()
    ensures MoveOutcome([[1, 1, 1], [1]], 4, Move(0, 1, 5)) == Moved([[], [1, 1, 1, 1]], 3)
  {
    var state: Puzzle := [[1, 1, 1], [1]];
    var b: Bottle := [1, 1, 1];
    assert TopRun(b) == 3 by {
      TopRunUnique(b, 3);
    }
    assert state[0] == b && Top(state[1]) == Top(b);
    assert LegalAmount(state, 4, Move(0, 1, 5)) == 3;
    assert ValidateMove(state, Move(0, 1, 5)) == Valid;
    var r := Pour(state, 0, 1, 3);
    assert r[0] == [] && r[1] == [1, 1, 1, 1];
    assert r == [[], [1, 1, 1, 1]];
  }
}

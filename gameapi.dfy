/**
 * The GameAPI facade: it owns a LiquidMover of a fixed bottle height and
 * forwards every call to it. Its one field is set by the constructor and
 * never changed, so it is a `const`.
 */
module Facade {
  import opened Wrappers
  import opened Puzzles
  import Mover

  class GameApi {
    /** The height of the LiquidMover the facade owns. */
    const bottleHeight: int

    constructor (bottleHeight: int := Mover.DefaultBottleHeight)
      ensures this.bottleHeight == bottleHeight
    {
      this.bottleHeight := bottleHeight;
    }

    /** moveLiquid with an explicit amount. */
    method MoveLiquid(state: Puzzle, from: int, to: int, amount: int) returns (res: Mover.MoveResult)
      ensures res == Mover.MoveOutcome(state, bottleHeight, Move(from, to, amount))
      ensures res.Moved? ==>
        1 <= res.actualAmount <= amount &&
        res.newState == Pour(state, from, to, res.actualAmount) &&
        ColorBag(res.newState) == ColorBag(state)
    {
      res := Mover.MoveLiquid(state, bottleHeight, Move(from, to, amount));
    }

    /** autoMoveLiquid: pours as much as one move can. */
    method AutoMoveLiquid(state: Puzzle, from: int, to: int) returns (res: Mover.MoveResult)
      ensures res == Mover.AutoMoveOutcome(state, bottleHeight, from, to)
      ensures res.Moved? ==>
        InRange(state, from) && InRange(state, to) &&
        Move(from, to, res.actualAmount) in Mover.PossibleMoves(state, bottleHeight, from)
    {
      res := Mover.AutoMoveLiquid(state, bottleHeight, from, to);
      if res.Moved? {
        Mover.AutoMoveIsListed(state, bottleHeight, from, to);
      }
    }

    /**
     * getPossibleMoves: the moves of one source when `from` is given, of
     * every source otherwise. Each listed move is accepted by moveLiquid and
     * pours exactly its amount.
     */
    method GetPossibleMoves(state: Puzzle, from: Option<int>) returns (moves: seq<Move>)
      ensures from.Some? ==> moves == Mover.PossibleMoves(state, bottleHeight, from.value)
      ensures from.None? ==> moves == Mover.AllPossibleMoves(state, bottleHeight)
      ensures forall m :: m in moves ==>
        InRange(state, m.from) && InRange(state, m.to) && m.from != m.to && 0 < m.amount <= |state[m.from]| &&
        Mover.MoveOutcome(state, bottleHeight, m) ==
          Mover.Moved(Pour(state, m.from, m.to, m.amount), m.amount)
    {
      if from.Some? {
        moves := Mover.FindPossibleMoves(state, bottleHeight, from.value);
        forall m | m in moves
          ensures InRange(state, m.from) && InRange(state, m.to) && m.from != m.to && 0 < m.amount <= |state[m.from]| &&
            Mover.MoveOutcome(state, bottleHeight, m) ==
              Mover.Moved(Pour(state, m.from, m.to, m.amount), m.amount)
        {
          Mover.ListedMoveSucceeds(state, bottleHeight, from.value, m);
        }
      } else {
        moves := Mover.FindAllPossibleMoves(state, bottleHeight);
        forall m | m in moves
          ensures InRange(state, m.from) && InRange(state, m.to) && m.from != m.to && 0 < m.amount <= |state[m.from]| &&
            Mover.MoveOutcome(state, bottleHeight, m) ==
              Mover.Moved(Pour(state, m.from, m.to, m.amount), m.amount)
        {
          Mover.AllListedMoveSucceeds(state, bottleHeight, m);
        }
      }
    }

    /** isCompleted: every bottle empty, or full and of one colour. */
    method IsCompleted(state: Puzzle) returns (done: bool)
      ensures done <==> forall i :: 0 <= i < |state| ==>
        |state[i]| == 0 || (|state[i]| == bottleHeight && forall j :: 0 <= j < |state[i]| ==> state[i][j] == state[i][0])
    {
      done := Mover.IsGameCompleted(state, bottleHeight);
    }

    /** evaluateMove: -1 for a refused move, otherwise the change of score. */
    method EvaluateMove(state: Puzzle, from: int, to: int, amount: int) returns (delta: int)
      ensures Mover.MoveOutcome(state, bottleHeight, Move(from, to, amount)).Failed? ==> delta == -1
      ensures Mover.MoveOutcome(state, bottleHeight, Move(from, to, amount)).Moved? ==>
        delta == Mover.GameScore(Mover.MoveOutcome(state, bottleHeight, Move(from, to, amount)).newState, bottleHeight) -
          Mover.GameScore(state, bottleHeight)
    {
      delta := Mover.EvaluateMove(state, bottleHeight, Move(from, to, amount));
    }
  }
}

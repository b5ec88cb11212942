/**
 * Concrete games played through the pure tick, and the consequences of
 * the key handler steering immediately instead of buffering a direction.
 */
module Scenarios {
  import opened Grid
  import opened Snake

  /** Four ticks right from (10, 10) towards food at (15, 10): the head
      reaches (14, 10), the snake stays one cell long, no points. */
  lemma FourTicksTowardsFood()
    ensures var b0 := Board([Start], (15, 10), 0);
            var r1 := Move(b0, Right, []);
            var r2 := Move(r1.board, Right, []);
            var r3 := Move(r2.board, Right, []);
            var r4 := Move(r3.board, Right, []);
            && r1.moved && r2.moved && r3.moved && r4.moved
            && r4.board == Board([(14, 10)], (15, 10), 0)
  {
  }

  /** The fifth tick eats: ten points, two cells, new food off the snake. */
  lemma FifthTickEats(draws: seq<Cell>)
    requires InGridDraws(draws) && HasFreeDraw(draws, [(15, 10), (14, 10)])
    ensures var r := Move(Board([(14, 10)], (15, 10), 0), Right, draws);
            && r.moved && r.board.snake == [(15, 10), (14, 10)] && r.board.score == 10
            && r.board.food !in r.board.snake && InGrid(r.board.food)
  {
  }

  /** Leaving the grid on the left ends the move. */
  lemma WallOnTheLeft(food: Cell)
    ensures !Move(Board([(0, 5)], food, 0), Left, []).moved
  {
  }

  /** Steering the five-cell snake [(5,5),(4,5),(3,5),(2,5),(1,5)] down,
      left and up brings the head onto (4, 5), a body cell that is not
      the tail: the third move fails. */
  lemma TurnIntoOwnBody(food: Cell)
    requires food !in [(5, 6), (4, 6)]
    ensures var b0 := Board([(5, 5), (4, 5), (3, 5), (2, 5), (1, 5)], food, 40);
            var r1 := Move(b0, Down, []);
            var r2 := Move(r1.board, Steer(Down, Left), []);
            && r1.moved && r2.moved
            && r2.board.snake == [(4, 6), (5, 6), (5, 5), (4, 5), (3, 5)]
            && !Move(r2.board, Steer(Left, Up), []).moved
  {
  }

  /** The tail counts: a move onto the cell the tail is about to leave is
      a collision, whatever the board. */
  lemma TailCellCollides(b: Board, dir: Direction, draws: seq<Cell>)
    requires CanTick(b, dir, draws)
    requires NewHead(b, dir) == b.snake[|b.snake| - 1]
    ensures !Move(b, dir, draws).moved
  {
  }

  /** With no pending-direction buffer, two keys in one tick reverse the
      snake: a perpendicular key and then the opposite of the last move
      are both accepted, and the next tick runs into the neck. */
  lemma QuickTurnHitsNeck(b: Board, moved: Direction, turn: Direction, draws: seq<Cell>)
    requires |b.snake| >= 2 && b.snake[0] == NextHead(b.snake[1], moved)
    requires turn != moved && turn != Opposite(moved)
    requires InGridDraws(draws)
    ensures Steer(Steer(moved, turn), Opposite(moved)) == Opposite(moved)
    ensures CanTick(b, Opposite(moved), draws) && !Move(b, Opposite(moved), draws).moved
  {
  }

  /** On the two-cell snake [(5,5),(4,5)] heading right, Up then Left
      within one tick sends the head onto (4, 5): the neck, which is also
      the tail, so the move fails. */
  lemma TwoCellQuickTurn(food: Cell)
    requires food !in [(5, 5), (4, 5)]
    ensures Steer(Steer(Right, Up), Left) == Left
    ensures !Move(Board([(5, 5), (4, 5)], food, 10), Left, []).moved
  {
  }
}

/**
 * The engine of the classic snake game: the board, one tick of movement,
 * food placement, the key handler and restart.  The pure functions here
 * (FirstFreeIndex, Move, Steer) are the specification; the class
 * SnakeGame updates its fields in place as the game object does, and each
 * of its methods is proved to agree with them.
 */
module Snake {
  import opened Grid

  /** Where every game starts: one cell at (10, 10), heading right. */
  const Start: Cell := (10, 10)
  const FoodReward: int := 10
  const InitialSpeed: int := 150

  // ---------------------------------------------------------------------
  // Food placement
  // ---------------------------------------------------------------------

  /** The cells the random source yields, one `(randint, randint)` pair
      per retry; `randint(0, 29)` never leaves the grid. */
  predicate InGridDraws(draws: seq<Cell>) {
    forall i :: 0 <= i < |draws| ==> InGrid(draws[i])
  }

  /** Some draw misses the body, so the retry loop stops. */
  predicate HasFreeDraw(draws: seq<Cell>, body: seq<Cell>) {
    exists i :: 0 <= i < |draws| && draws[i] !in body
  }

  /** The retry at which food placement stops: the first draw off the body. */
  function FirstFreeIndex(draws: seq<Cell>, body: seq<Cell>): (k: nat)
    requires HasFreeDraw(draws, body)
    ensures k < |draws| && draws[k] !in body
    ensures forall j :: 0 <= j < k ==> draws[j] in body
  {
    if draws[0] !in body then 0
    else
      var i :| 0 <= i < |draws| && draws[i] !in body;
      assert draws[1..][i - 1] == draws[i];
      1 + FirstFreeIndex(draws[1..], body)
  }

  /** The food cell chosen for `body` from `draws`. */
  function PickFood(draws: seq<Cell>, body: seq<Cell>): Cell
    requires HasFreeDraw(draws, body)
  {
    draws[FirstFreeIndex(draws, body)]
  }

  /** A random source whose draws run through every cell of the grid
      always lets placement stop while the body has fewer than 900 entries. */
  lemma CoveringDrawsStop(draws: seq<Cell>, body: seq<Cell>)
    requires forall c :: InGrid(c) ==> c in draws
    requires |body| < Columns * Rows
    ensures HasFreeDraw(draws, body)
  {
    FreeCellExists(body);
    var c :| InGrid(c) && c !in body;
    var i :| 0 <= i < |draws| && draws[i] == c;
  }

  // ---------------------------------------------------------------------
  // The board and one tick of movement
  // ---------------------------------------------------------------------

  /** The part of the game state that a tick changes. */
  datatype Board = Board(snake: seq<Cell>, food: Cell, score: int)

  /** The snake covers every cell of the grid. */
  predicate FillsGrid(b: Board) {
    |b.snake| == Columns * Rows
  }

  /** What holds of every board the game reaches: a non-empty snake of
      distinct cells inside the grid, food in the grid and, unless the
      snake fills the grid, on a free cell, and ten points for every cell
      grown beyond the first. */
  predicate WellFormed(b: Board) {
    && |b.snake| >= 1
    && (forall i :: 0 <= i < |b.snake| ==> InGrid(b.snake[i]))
    && Distinct(b.snake)
    && InGrid(b.food)
    && (b.food !in b.snake || FillsGrid(b))
    && FoodReward * |b.snake| == b.score + FoodReward
  }

  function NewHead(b: Board, dir: Direction): Cell
    requires |b.snake| >= 1
  {
    NextHead(b.snake[0], dir)
  }

  /** The move fails: off the grid, or onto any body cell, the tail included. */
  predicate Collides(b: Board, dir: Direction)
    requires |b.snake| >= 1
  {
    var h := NewHead(b, dir);
    h.0 < 0 || h.0 > MaxX || h.1 < 0 || h.1 > MaxY || h in b.snake
  }

  predicate Eats(b: Board, dir: Direction)
    requires |b.snake| >= 1
  {
    !Collides(b, dir) && NewHead(b, dir) == b.food
  }

  /** The snake grows to fill the grid: no cell is left for food. */
  predicate GrowsToFill(b: Board, dir: Direction)
    requires |b.snake| >= 1
  {
    Eats(b, dir) && |b.snake| + 1 >= Columns * Rows
  }

  /** What a tick needs of its random draws: if it eats and leaves a cell
      free, placement must stop. */
  predicate CanTick(b: Board, dir: Direction, draws: seq<Cell>) {
    && |b.snake| >= 1
    && InGridDraws(draws)
    && (Eats(b, dir) && !GrowsToFill(b, dir) ==> HasFreeDraw(draws, [NewHead(b, dir)] + b.snake))
  }

  /** The result of `move_snake`: whether it moved, and the board after. */
  datatype Outcome = Outcome(moved: bool, board: Board)

  /** One move in direction `dir`. A move that makes the snake fill the
      grid places no food (the source would retry forever, see
      FillingTheGridHangs); the food stays on the cell just eaten. */
  function Move(b: Board, dir: Direction, draws: seq<Cell>): (r: Outcome)
    requires CanTick(b, dir, draws)
    ensures r.moved <==> InGrid(NewHead(b, dir)) && NewHead(b, dir) !in b.snake
    ensures !r.moved ==> r.board == b
    ensures r.moved ==> |r.board.snake| >= 1 && r.board.snake[0] == NewHead(b, dir)
    ensures r.moved && NewHead(b, dir) == b.food ==>
              && r.board.snake[1..] == b.snake
              && r.board.score == b.score + FoodReward
    ensures r.moved && NewHead(b, dir) == b.food && !GrowsToFill(b, dir) ==>
              InGrid(r.board.food) && r.board.food !in r.board.snake
    ensures r.moved && GrowsToFill(b, dir) ==> r.board.food == b.food
    ensures r.moved && NewHead(b, dir) != b.food ==>
              && r.board.snake[1..] == b.snake[..|b.snake| - 1]
              && r.board.score == b.score
              && r.board.food == b.food
    ensures r.board.score >= b.score
  {
    if Collides(b, dir) then Outcome(false, b)
    else
      var h := NewHead(b, dir);
      var grown := [h] + b.snake;
      if h == b.food && |grown| < Columns * Rows then
        Outcome(true, Board(grown, PickFood(draws, grown), b.score + FoodReward))
      else if h == b.food then
        Outcome(true, Board(grown, b.food, b.score + FoodReward))
      else
        Outcome(true, Board(grown[..|grown| - 1], b.food, b.score))
  }

  /** Length law: eating grows the snake by one cell, any other move keeps
      its length, a failed move changes nothing. */
  lemma MoveLengthLaw(b: Board, dir: Direction, draws: seq<Cell>)
    requires CanTick(b, dir, draws)
    ensures var r := Move(b, dir, draws);
            |r.board.snake| == |b.snake| + (if r.moved && NewHead(b, dir) == b.food then 1 else 0)
  {
  }

  /** A tick keeps the board well formed: the new head is a free grid
      cell, the body loses at most its last cell, and fresh food avoids
      the grown snake unless it fills the grid. A snake that already
      fills the grid cannot move at all. */
  lemma MoveKeepsWellFormed(b: Board, dir: Direction, draws: seq<Cell>)
    requires WellFormed(b) && CanTick(b, dir, draws)
    ensures WellFormed(Move(b, dir, draws).board)
  {
    var r := Move(b, dir, draws);
    if r.moved {
      if FillsGrid(b) {
        FullSnakeIsStuck(b, dir);
      }
      var h := NewHead(b, dir);
      PushKeepsDistinct(b.snake, h);
      DistinctCellsFit(b.snake);
      if h != b.food {
        assert r.board.snake == ([h] + b.snake)[..|b.snake|];
        assert b.food !in r.board.snake;
      }
    }
  }

  /** A snake that fills the grid has no free cell to move to. */
  lemma FullSnakeIsStuck(b: Board, dir: Direction)
    requires WellFormed(b) && FillsGrid(b)
    ensures Collides(b, dir)
  {
    FullBodyCoversGrid(b.snake);
  }

  /** Pushing a free grid cell in front of a body of distinct grid cells
      keeps the cells distinct and in the grid, with or without the last
      cell, and the dropped last cell is the only one to leave. */
  lemma PushKeepsDistinct(body: seq<Cell>, h: Cell)
    requires |body| >= 1 && Distinct(body) && (forall i :: 0 <= i < |body| ==> InGrid(body[i]))
    requires InGrid(h) && h !in body
    ensures var g := [h] + body;
            && Distinct(g) && (forall i :: 0 <= i < |g| ==> InGrid(g[i]))
            && Distinct(g[..|body|]) && (forall i :: 0 <= i < |body| ==> InGrid(g[..|body|][i]))
            && (forall c :: c in g[..|body|] && c != h ==> c in body[..|body| - 1])
  {
    var g := [h] + body;
    assert forall i :: 1 <= i < |g| ==> g[i] == body[i - 1];
  }

  /** As written, the tick that lets the snake fill the grid calls food
      placement on a body that covers the grid: no draw of `randint` is
      free, so the retry loop never returns and the game freezes. */
  lemma FillingTheGridHangs(b: Board, dir: Direction, draws: seq<Cell>)
    requires WellFormed(b) && |b.snake| + 1 == Columns * Rows && Eats(b, dir)
    requires InGridDraws(draws)
    ensures !HasFreeDraw(draws, [NewHead(b, dir)] + b.snake)
  {
    var grown := [NewHead(b, dir)] + b.snake;
    assert forall i :: 1 <= i < |grown| ==> grown[i] == b.snake[i - 1];
    FullBodyCoversGrid(grown);
  }

  /** With placement skipped, filling the grid ends the game on the next
      tick instead of freezing it: every neighbour of the head is a wall
      or a body cell. */
  lemma FilledGridEndsGame(b: Board, dir: Direction, draws: seq<Cell>, next: Direction, draws': seq<Cell>)
    requires WellFormed(b) && CanTick(b, dir, draws) && GrowsToFill(b, dir)
    ensures var r := Move(b, dir, draws);
            && r.moved && FillsGrid(r.board) && WellFormed(r.board)
            && CanTick(r.board, next, draws') == InGridDraws(draws')
            && (InGridDraws(draws') ==> !Move(r.board, next, draws').moved)
  {
    var r := Move(b, dir, draws);
    MoveKeepsWellFormed(b, dir, draws);
    FullBodyCoversGrid(r.board.snake);
  }

  // ---------------------------------------------------------------------
  // Key input
  // ---------------------------------------------------------------------

  /** The key presses the handler tells apart: Space, R, a movement key
      (arrows or WASD), anything else. */
  datatype Key = PauseKey | RestartKey | DirectionKey(dir: Direction) | OtherKey

  /** The direction after a movement key while the game runs: the request,
      unless it is the opposite of the current direction. */
  function Steer(current: Direction, requested: Direction): (d: Direction)
    ensures d != Opposite(current)
    ensures d == requested <==> requested != Opposite(current)
    ensures d != requested ==> d == current
  {
    if requested != Opposite(current) then requested else current
  }

  // ---------------------------------------------------------------------
  // The game object
  // ---------------------------------------------------------------------

  class SnakeGame {
    var snakePositions: seq<Cell>
    var snakeDirection: Direction
    var foodPosition: Cell
    var score: int
    var gameRunning: bool
    var gamePaused: bool
    /** Milliseconds between ticks; only the advanced game changes it. */
    var gameSpeed: int

    function Current(): Board
      reads this
    {
      Board(snakePositions, foodPosition, score)
    }

    ghost predicate Valid()
      reads this
    {
      WellFormed(Current())
    }

    /** Sets up the state, then runs the first tick, as `__init__` does
        when it calls `update_game`. */
    constructor (foodDraws: seq<Cell>, tickDraws: seq<Cell>)
      requires InGridDraws(foodDraws) && HasFreeDraw(foodDraws, [Start])
      requires CanTick(Board([Start], PickFood(foodDraws, [Start]), 0), Right, tickDraws)
      ensures Valid()
      ensures var first := Move(Board([Start], PickFood(foodDraws, [Start]), 0), Right, tickDraws);
              Current() == first.board && gameRunning == first.moved
      ensures snakeDirection == Right && !gamePaused && gameSpeed == InitialSpeed
    {
      snakePositions := [Start];
      snakeDirection := Right;
      score := 0;
      gameRunning := true;
      gamePaused := false;
      gameSpeed := InitialSpeed;
      new;
      foodPosition := GenerateFood(foodDraws);
      UpdateGame(tickDraws);
    }

    /** The state `__init__` sets up before its first tick. */
    constructor Fresh(foodDraws: seq<Cell>)
      requires InGridDraws(foodDraws) && HasFreeDraw(foodDraws, [Start])
      ensures Valid()
      ensures Current() == Board([Start], PickFood(foodDraws, [Start]), 0)
      ensures snakeDirection == Right && gameRunning && !gamePaused && gameSpeed == InitialSpeed
    {
      snakePositions := [Start];
      snakeDirection := Right;
      score := 0;
      gameRunning := true;
      gamePaused := false;
      gameSpeed := InitialSpeed;
      new;
      foodPosition := GenerateFood(foodDraws);
    }

    /** Retries random cells until one is off the snake. */
    method GenerateFood(draws: seq<Cell>) returns (food: Cell)
      requires InGridDraws(draws) && HasFreeDraw(draws, snakePositions)
      ensures InGrid(food) && food !in snakePositions
      ensures food == draws[FirstFreeIndex(draws, snakePositions)]
    {
      var i := 0;
      while draws[i] in snakePositions
        invariant i <= FirstFreeIndex(draws, snakePositions)
        decreases FirstFreeIndex(draws, snakePositions) - i
      {
        i := i + 1;
      }
      food := draws[i];
    }

    /** `move_snake`: one step, reporting whether it succeeded. */
    method MoveSnake(draws: seq<Cell>) returns (moved: bool)
      requires Valid() && CanTick(Current(), snakeDirection, draws)
      modifies this
      ensures Valid()
      ensures Outcome(moved, Current()) == Move(old(Current()), old(snakeDirection), draws)
      ensures snakeDirection == old(snakeDirection) && gameRunning == old(gameRunning)
      ensures gamePaused == old(gamePaused) && gameSpeed == old(gameSpeed)
    {
      ghost var before := Current();
      MoveKeepsWellFormed(before, snakeDirection, draws);
      var newHead := NextHead(snakePositions[0], snakeDirection);
      if newHead.0 < 0 || newHead.0 > MaxX || newHead.1 < 0 || newHead.1 > MaxY {
        return false;
      }
      if newHead in snakePositions {
        return false;
      }
      snakePositions := [newHead] + snakePositions;
      if newHead == foodPosition {
        score := score + FoodReward;
        if |snakePositions| < Columns * Rows {
          foodPosition := GenerateFood(draws);
        }
      } else {
        snakePositions := snakePositions[..|snakePositions| - 1];
      }
      return true;
    }

    /** `update_game`, without drawing and scheduling: move only while
        running and not paused, and stop the game when the move fails. */
    method UpdateGame(draws: seq<Cell>)
      requires Valid()
      requires gameRunning && !gamePaused ==> CanTick(Current(), snakeDirection, draws)
      modifies this
      ensures Valid()
      ensures old(gameRunning && !gamePaused) ==>
                var r := Move(old(Current()), old(snakeDirection), draws);
                Current() == r.board && gameRunning == r.moved
      ensures !old(gameRunning && !gamePaused) ==>
                Current() == old(Current()) && gameRunning == old(gameRunning)
      ensures snakeDirection == old(snakeDirection) && gamePaused == old(gamePaused)
      ensures gameSpeed == old(gameSpeed)
    {
      if gameRunning && !gamePaused {
        var moved := MoveSnake(draws);
        if !moved {
          gameRunning := false;
        }
      }
    }

    /** `restart_game`: the same fresh game from any state; only the food
        depends on the random draws. The tick interval is not reset. */
    method RestartGame(draws: seq<Cell>)
      requires InGridDraws(draws) && HasFreeDraw(draws, [Start])
      modifies this
      ensures Valid()
      ensures snakePositions == [Start] && snakeDirection == Right
      ensures foodPosition == PickFood(draws, [Start])
      ensures score == 0 && gameRunning && !gamePaused
      ensures gameSpeed == old(gameSpeed)
    {
      snakePositions := [Start];
      snakeDirection := Right;
      foodPosition := GenerateFood(draws);
      score := 0;
      gameRunning := true;
      gamePaused := false;
    }

    /** `on_key_press`: Space toggles pause in every state, R restarts,
        and a movement key steers only a running, unpaused game. */
    method OnKeyPress(key: Key, draws: seq<Cell>)
      requires Valid()
      requires key == RestartKey ==> InGridDraws(draws) && HasFreeDraw(draws, [Start])
      modifies this
      ensures Valid()
      ensures gameSpeed == old(gameSpeed)
      ensures key == PauseKey ==>
                && gamePaused == !old(gamePaused)
                && Current() == old(Current()) && snakeDirection == old(snakeDirection)
                && gameRunning == old(gameRunning)
      ensures key == RestartKey ==>
                && snakePositions == [Start] && snakeDirection == Right
                && foodPosition == PickFood(draws, [Start])
                && score == 0 && gameRunning && !gamePaused
      ensures key.DirectionKey? ==>
                && snakeDirection == (if old(gameRunning && !gamePaused)
                                      then Steer(old(snakeDirection), key.dir)
                                      else old(snakeDirection))
                && Current() == old(Current())
                && gameRunning == old(gameRunning) && gamePaused == old(gamePaused)
      ensures key == OtherKey ==>
                && Current() == old(Current()) && snakeDirection == old(snakeDirection)
                && gameRunning == old(gameRunning) && gamePaused == old(gamePaused)
    {
      if key == PauseKey {
        gamePaused := !gamePaused;
        return;
      }
      if key == RestartKey {
        RestartGame(draws);
        return;
      }
      if gamePaused || !gameRunning {
        return;
      }
      if key.DirectionKey? {
        if key.dir != Opposite(snakeDirection) {
          snakeDirection := key.dir;
        }
      }
    }
  }
}

/**
 * The advanced game: after every move it may shorten the tick interval
 * and it keeps a high score.  In the source it is a subclass whose
 * `move_snake` wraps the base one; here it is a class that owns a base
 * game and wraps its MoveSnake.
 */
module Advanced {
  import opened Grid
  import opened Snake

  /** The tick interval never goes below 50 ms; each step takes off 5 ms. */
  const SpeedFloor: int := 50
  const SpeedStep: int := 5
  /** The interval shrinks while the score is a positive multiple of 50. */
  const SpeedScoreStep: int := 50

  function Max(a: int, b: int): int {
    if a >= b then a else b
  }

  /** The tick interval after a move that left the score at `score`.
      It only shrinks after a successful move, and not below the floor. */
  function SpeedAfterMove(speed: int, score: int, moved: bool, speedIncrease: bool): (r: int)
    ensures speed >= SpeedFloor ==> SpeedFloor <= r <= speed
    ensures r != speed ==> moved && speedIncrease && score > 0 && score % SpeedScoreStep == 0
    ensures moved && speedIncrease && score > 0 && score % SpeedScoreStep == 0 && speed > SpeedFloor ==> r < speed
  {
    if moved && speedIncrease && score > 0 && score % SpeedScoreStep == 0 then
      Max(SpeedFloor, speed - SpeedStep)
    else
      speed
  }

  /** The interval after `n` successful moves that all leave the score at
      `score`, e.g. moves that eat nothing while the score sits at 50. */
  function SpeedAfterMoves(speed: int, score: int, n: nat): int
    decreases n
  {
    if n == 0 then speed else SpeedAfterMoves(SpeedAfterMove(speed, score, true, true), score, n - 1)
  }

  /** While the score stays a positive multiple of 50, every successful
      move takes off another 5 ms, down to the floor: the interval drops
      on consecutive ticks, not only on the tick that ate. */
  lemma {:induction false} SpeedKeepsDropping(speed: int, score: int, n: nat)
    requires speed >= SpeedFloor && score > 0 && score % SpeedScoreStep == 0
    ensures SpeedAfterMoves(speed, score, n) == Max(SpeedFloor, speed - SpeedStep * n)
  {
    if n > 0 {
      SpeedKeepsDropping(Max(SpeedFloor, speed - SpeedStep), score, n - 1);
    }
  }

  class SnakeGameAdvanced {
    /** The wrapped base game; its `gameSpeed` is the interval this class tunes. */
    const game: SnakeGame
    var highScore: int
    var speedIncrease: bool

    ghost predicate Valid()
      reads this, game
    {
      && game.Valid()
      && SpeedFloor <= game.gameSpeed <= InitialSpeed
      && game.score <= highScore
    }

    /** Sets the advanced fields before the first tick, which then runs
        the advanced move (see MoveEpilogueAsWritten for the order the
        source uses). */
    constructor (foodDraws: seq<Cell>, tickDraws: seq<Cell>)
      requires InGridDraws(foodDraws) && HasFreeDraw(foodDraws, [Start])
      requires CanTick(Board([Start], PickFood(foodDraws, [Start]), 0), Right, tickDraws)
      ensures Valid() && speedIncrease && fresh(game)
      ensures var first := Move(Board([Start], PickFood(foodDraws, [Start]), 0), Right, tickDraws);
              && game.Current() == first.board && game.gameRunning == first.moved
              && highScore == first.board.score
              && game.gameSpeed == SpeedAfterMove(InitialSpeed, first.board.score, first.moved, true)
      ensures game.snakeDirection == Right && !game.gamePaused
    {
      var g := new SnakeGame.Fresh(foodDraws);
      game := g;
      highScore := 0;
      speedIncrease := true;
      new;
      UpdateGame(tickDraws);
    }

    /** The advanced `move_snake`: the base move, then the speed rule
        (only after a successful move), then the high score (after every
        move, failed ones included). */
    method MoveSnake(draws: seq<Cell>) returns (moved: bool)
      requires Valid() && CanTick(game.Current(), game.snakeDirection, draws)
      modifies this, game
      ensures Valid() && speedIncrease == old(speedIncrease)
      ensures Outcome(moved, game.Current()) == Move(old(game.Current()), old(game.snakeDirection), draws)
      ensures game.gameSpeed == SpeedAfterMove(old(game.gameSpeed), game.score, moved, speedIncrease)
      ensures highScore == Max(old(highScore), game.score)
      ensures game.snakeDirection == old(game.snakeDirection)
      ensures game.gameRunning == old(game.gameRunning) && game.gamePaused == old(game.gamePaused)
    {
      moved := game.MoveSnake(draws);
      game.gameSpeed := SpeedAfterMove(game.gameSpeed, game.score, moved, speedIncrease);
      if game.score > highScore {
        highScore := game.score;
      }
    }

    /** `update_game` of the advanced game: the same gating as the base
        game, with the advanced move. */
    method UpdateGame(draws: seq<Cell>)
      requires Valid()
      requires game.gameRunning && !game.gamePaused ==> CanTick(game.Current(), game.snakeDirection, draws)
      modifies this, game
      ensures Valid() && speedIncrease == old(speedIncrease)
      ensures old(game.gameRunning && !game.gamePaused) ==>
                var r := Move(old(game.Current()), old(game.snakeDirection), draws);
                && game.Current() == r.board && game.gameRunning == r.moved
                && game.gameSpeed == SpeedAfterMove(old(game.gameSpeed), r.board.score, r.moved, speedIncrease)
                && highScore == Max(old(highScore), r.board.score)
      ensures !old(game.gameRunning && !game.gamePaused) ==>
                && game.Current() == old(game.Current()) && game.gameRunning == old(game.gameRunning)
                && game.gameSpeed == old(game.gameSpeed) && highScore == old(highScore)
      ensures game.snakeDirection == old(game.snakeDirection) && game.gamePaused == old(game.gamePaused)
    {
      if game.gameRunning && !game.gamePaused {
        var moved := MoveSnake(draws);
        if !moved {
          game.gameRunning := false;
        }
      }
    }

    /** Keys go to the base handler; restarting keeps the high score and
        the current tick interval. */
    method OnKeyPress(key: Key, draws: seq<Cell>)
      requires Valid()
      requires key == RestartKey ==> InGridDraws(draws) && HasFreeDraw(draws, [Start])
      modifies game
      ensures Valid()
      ensures game.gameSpeed == old(game.gameSpeed)
      ensures key == RestartKey ==>
                && game.snakePositions == [Start] && game.snakeDirection == Right
                && game.score == 0 && game.gameRunning && !game.gamePaused
    {
      game.OnKeyPress(key, draws);
    }
  }

  // ---------------------------------------------------------------------
  // The constructor as the source orders it
  // ---------------------------------------------------------------------

  datatype Option<T> = None | Some(value: T)

  /** The two attributes the advanced constructor adds, as Python sees them
      while the object is being built: absent until assigned. */
  datatype AdvancedAttrs = AdvancedAttrs(highScore: Option<int>, speedIncrease: Option<bool>)

  /** The tail of the advanced `move_snake` run on a possibly half-built
      object: reading an absent attribute raises AttributeError. */
  datatype Epilogue = Completed(speed: int, attrs: AdvancedAttrs) | AttributeError(name: string)

  /** Lines 353-360 as written, attribute lookups included: the speed
      check reads `speed_increase` only after a successful move (Python's
      `and` short-circuits); the high-score check reads `high_score` always. */
  function MoveEpilogueAsWritten(moved: bool, score: int, speed: int, a: AdvancedAttrs): (r: Epilogue)
    ensures a.highScore.None? ==> r.AttributeError?
    ensures moved && a.speedIncrease.None? ==> r == AttributeError("speed_increase")
  {
    if moved && a.speedIncrease.None? then AttributeError("speed_increase")
    else
      var speed' := if moved then SpeedAfterMove(speed, score, moved, a.speedIncrease.value) else speed;
      if a.highScore.None? then AttributeError("high_score")
      else Completed(speed', AdvancedAttrs(Some(Max(a.highScore.value, score)), a.speedIncrease))
  }

  /** Once both attributes exist, the epilogue as written is what the
      advanced MoveSnake does. */
  lemma EpilogueAgreesOnceBuilt(moved: bool, score: int, speed: int, high: int, inc: bool)
    ensures MoveEpilogueAsWritten(moved, score, speed, AdvancedAttrs(Some(high), Some(inc)))
            == Completed(SpeedAfterMove(speed, score, moved, inc), AdvancedAttrs(Some(Max(high, score)), Some(inc)))
  {
  }

  /** In the source the base constructor runs the first tick, through the
      overriding `move_snake`, before `high_score` and `speed_increase`
      are assigned. The first move from the start cell always succeeds,
      so constructing the advanced game raises AttributeError. */
  lemma AdvancedInitRaises(foodDraws: seq<Cell>, tickDraws: seq<Cell>)
    requires InGridDraws(foodDraws) && HasFreeDraw(foodDraws, [Start])
    requires CanTick(Board([Start], PickFood(foodDraws, [Start]), 0), Right, tickDraws)
    ensures var first := Move(Board([Start], PickFood(foodDraws, [Start]), 0), Right, tickDraws);
            && first.moved
            && MoveEpilogueAsWritten(first.moved, first.board.score, InitialSpeed, AdvancedAttrs(None, None))
               == AttributeError("speed_increase")
  {
  }
}

# Snake game engine in Dafny

This project models the game engine inside `snake.py`. That is a tkinter snake game on a 30×30 grid of cells, worked out as `window_width // grid_size` = 600 // 20. The model covers:

- the game object's state: `snake_positions`, `snake_direction`, `food_position`, `score`, `game_running`, `game_paused` and `game_speed`;
- one tick of `update_game` and the `move_snake` it calls;
- food placement in `generate_food`;
- the key handler `on_key_press`;
- `restart_game`;
- the advanced variant's speed rule and high score.

Files:

- `grid.dfy` (module `Grid`): the grid constants, cells, directions, the opposite-direction table and the step a head takes. It also holds the pigeonhole facts: a body of fewer than 900 distinct grid cells leaves a cell free, and one of 900 leaves none.
- `snake.dfy` (module `Snake`): the pure specification of a tick (`Board`, `Move`), food placement (`FirstFreeIndex`), steering (`Steer`), and the class `SnakeGame`. The class's fields are updated in place, as in the source. Each of its methods is proved to agree with the pure functions and to keep the invariant `Valid()`. That invariant says the snake is non-empty, its cells are distinct and inside the grid, the food is in the grid and on a free cell unless the snake fills the grid, and the score is `10 * (length - 1)`.
- `advanced.dfy` (module `Advanced`): `SnakeGameAdvanced`, the speed rule and the high score. It also models the advanced constructor as the source orders it.
- `scenarios.dfy` (module `Scenarios`): concrete games played through `Move`, and the consequences of steering with no buffered direction.

Random numbers: each operation that may call `generate_food` takes `draws`. That is the sequence of `(randint(0, 29), randint(0, 29))` pairs the retry loop would see. Callers must supply draws that lie in the grid and that include at least one cell off the snake. Without such a cell the source's `while True` loop never returns. `CoveringDrawsStop` shows this is always possible while the body has fewer than 900 entries. At 900 entries it is impossible (`FillingTheGridHangs`), which is the finding below.

Subclassing is replaced by composition. `SnakeGameAdvanced` owns a `SnakeGame` (`game`), wraps its `MoveSnake`, and runs its own `UpdateGame` with the same gating. Python's dynamic dispatch does the same: the base `update_game` calls the overriding `move_snake`.

Behaviour kept as the code has it, where an idealised snake game would differ:

- There is no pending-direction buffer. A movement key overwrites the direction at once (`OnKeyPress`), so two keys within one tick can reverse the snake into its neck (`Scenarios.QuickTurnHitsNeck`).
- The self-collision test runs before the tail is popped, so moving onto the current tail cell is a collision (`Scenarios.TailCellCollides`).
- Space toggles pause in every state, including after game over. R restarts from every state.
- `restart_game` does not reset `game_speed`, and it does not reset the advanced game's high score.
- The speed rule fires on every successful move while the score is a positive multiple of 50, not only on the move that ate (`Advanced.SpeedKeepsDropping`).
- The high score is updated after failed moves too.
- Filling the grid is the one place where the model departs from the code. When the snake grows to 900 cells, `Move` and `MoveSnake` skip the call to `generate_food` at snake.py:149. The food stays on the cell just eaten, and the next tick fails, which ends the game. As written, that call never returns; see "## Findings".
- The base constructor already runs one tick (`update_game` at snake.py:70). A new game therefore starts one cell right of (10, 10), or longer if the food was placed at (11, 10).

## Model

| member | source | states |
|---|---|---|
| Grid.OppositeUndoesStep | snake.py:108-129 | the opposite table is an involution without fixed points, and a step followed by a step in the opposite direction returns to the start cell |
| Grid.AllCells | snake.py:132-136 | an enumeration of the grid: 900 distinct cells, each in the grid, and every grid cell among them |
| Grid.FreeCellExists | snake.py:72-78 | a body of fewer than 30×30 entries leaves a grid cell free, which is what food placement needs to stop |
| Grid.FullBodyCoversGrid | snake.py:72-78 | the converse: 900 distinct grid cells cover every grid cell, so no `(randint(0,29), randint(0,29))` draw is free |
| Grid.DistinctCellsFit | snake.py:132-141 | a body of distinct grid cells, which the wall and self-collision checks keep, has at most 900 entries |
| Snake.FirstFreeIndex | snake.py:74-78 | the retry at which placement stops is a draw off the body, and every earlier draw hit the body |
| Snake.CoveringDrawsStop | snake.py:74-78 | draws that run through the whole grid contain a free cell whenever the body has fewer than 900 entries |
| Snake.Move | snake.py:117-154 | the move fails exactly when the new head leaves [0,29]×[0,29] or lands on any body cell, the tail included, and a failed move leaves the board unchanged; a successful move puts the new head in front; eating keeps the whole old body and adds 10 points; it places food in the grid and off the grown snake, except when the snake grows to fill the grid, where the food stays put; otherwise the tail is dropped and score and food stay; the score never falls |
| Snake.MoveLengthLaw | snake.py:144-152 | eating grows the snake by exactly one cell, any other move keeps its length |
| Snake.MoveKeepsWellFormed | snake.py:135-152 | a tick keeps every body cell in the grid and pairwise distinct, keeps the food in the grid and on a free cell unless the snake fills the grid, and keeps the score at 10 per grown cell |
| Snake.FullSnakeIsStuck | snake.py:132-141 | a snake that fills the grid collides whichever way it moves |
| Snake.PushKeepsDistinct | snake.py:143-152 | inserting a free grid cell as the new head keeps the body distinct and inside the grid, whether or not the tail is then popped, and popping leaves only the head and cells of the old body before its tail |
| Snake.FillingTheGridHangs | snake.py:72-78 | as written: when a 899-cell snake eats, `generate_food` gets a 900-cell body and no draw inside the grid is free, so its retry loop cannot stop |
| Snake.FilledGridEndsGame | snake.py:144-154 | corrected: the move that fills the grid succeeds and leaves a well-formed board that fills the grid; the next tick needs no free draw and always fails, so the game ends |
| Snake.Steer | snake.py:106-115 | a movement key sets the requested direction unless it is the opposite of the current one, in which case the direction stays; the result is never the opposite of the current direction |
| Snake.SnakeGame.constructor | snake.py:22-27 | the initial state followed by the first tick that `__init__` runs at line 70: the board after `Move` from `[(10,10)]` heading right, running if that move succeeded, not paused |
| Snake.SnakeGame.Fresh | snake.py:22-27 | the state before the first tick: snake `[(10,10)]`, direction Right, food from the draws off the snake, score 0, running, not paused, interval 150 |
| Snake.SnakeGame.GenerateFood | snake.py:72-78 | the retry loop returns the first draw that is not on the snake, a grid cell off the snake |
| Snake.SnakeGame.MoveSnake | snake.py:117-154 | the new snake, food and score and the returned flag are exactly those of `Move` from the old state, so food is placed only while a cell is left free; the invariant is kept; direction, pause, running and interval are untouched |
| Snake.SnakeGame.UpdateGame | snake.py:287-291 | while running and not paused, one `Move`, and the game stops exactly when the move fails; when paused or over, nothing changes |
| Snake.SnakeGame.RestartGame | snake.py:277-284 | from any state: snake `[(10,10)]`, direction Right, food chosen from the draws off the snake, score 0, running, not paused; the interval is kept |
| Snake.SnakeGame.OnKeyPress | snake.py:80-115 | Space toggles pause in every state and changes nothing else; R restarts; a movement key changes the direction only in a running, unpaused game and only as `Steer` allows; other keys change nothing |
| Advanced.SpeedAfterMove | snake.py:353-356 | the interval changes only after a successful move with the score a positive multiple of 50, then drops by 5 unless at the floor; from 50 or more it never rises and never drops below 50 |
| Advanced.SpeedKeepsDropping | snake.py:353-356 | n successful moves at a fixed positive multiple of 50 take the interval to max(50, speed - 5n) |
| Advanced.SnakeGameAdvanced.constructor | snake.py:332-335 | with the advanced fields set before the first tick: the first tick runs the advanced move; the high score equals the score after it; the interval follows the speed rule |
| Advanced.SnakeGameAdvanced.MoveSnake | snake.py:349-363 | the base move, then the interval set by `SpeedAfterMove` on the new score, then the high score becomes max(high score, score) whether or not the move succeeded; the interval stays in [50,150] and the high score stays at least the score |
| Advanced.SnakeGameAdvanced.UpdateGame | snake.py:287-291 | the base gating with the advanced move: when running and unpaused, one move with speed and high-score updates, stopping on failure; otherwise nothing changes |
| Advanced.SnakeGameAdvanced.OnKeyPress | snake.py:80-115 | keys go to the base handler; restart resets the snake, direction, score and flags but keeps the interval and the high score |
| Advanced.MoveEpilogueAsWritten | snake.py:353-360 | with `high_score` absent the epilogue always raises AttributeError; after a successful move with `speed_increase` absent it raises AttributeError for `speed_increase` |
| Advanced.EpilogueAgreesOnceBuilt | snake.py:353-360 | once both attributes exist, the epilogue as written computes exactly `SpeedAfterMove` and the max of the high score and the score |
| Advanced.AdvancedInitRaises | snake.py:332-335 | the first tick, run by the base constructor before the advanced attributes exist, always moves, so the advanced epilogue raises AttributeError for `speed_increase` |
| Scenarios.FourTicksTowardsFood | snake.py:117-154 | from (10,10) heading right with food at (15,10), four ticks move the head to (14,10) with length 1 and score 0 |
| Scenarios.FifthTickEats | snake.py:144-149 | the fifth tick eats: snake [(15,10),(14,10)], score 10, new food in the grid and off the snake |
| Scenarios.WallOnTheLeft | snake.py:135-137 | a head at x = 0 moving left fails |
| Scenarios.TurnIntoOwnBody | snake.py:139-141 | a five-cell snake steered down, left and up hits its own body cell (4,5), which is not the tail |
| Scenarios.TailCellCollides | snake.py:139-141 | a move onto the current tail cell fails, because the tail is still part of the body when it is checked |
| Scenarios.QuickTurnHitsNeck | snake.py:106-115 | a perpendicular key followed by the opposite of the last move are both accepted within one tick, and the next move runs into the neck |
| Scenarios.TwoCellQuickTurn | snake.py:106-141 | on [(5,5),(4,5)] heading right, Up then Left gives Left, and the move onto the tail (4,5) fails |

## Findings

| source | as written | input that shows it | evidently intended | confidence | as-written member | corrected member |
|---|---|---|---|---|---|---|
| snake.py:147-149 | When the head eats, `move_snake` calls `generate_food` after inserting the head. If the snake now covers all 900 cells, every draw of the `while True` loop (lines 74-78) is on the snake, so it never returns. | a 899-cell snake whose head is next to the food on the last free cell: the eating move freezes the game | filling the grid ends the game (or wins it) instead of freezing | medium (not executed) | Snake.FillingTheGridHangs | Snake.FilledGridEndsGame |
| snake.py:332-335 | `SnakeGameAdvanced.__init__` calls `super().__init__()` first. That runs `update_game` (line 70), which dispatches to the overriding `move_snake`. It reads `self.speed_increase` (line 353) and `self.high_score` (line 359) before lines 334-335 assign them. | `SnakeGameAdvanced()`: the first move from (10,10) to (11,10) succeeds, so line 353 raises AttributeError for `speed_increase` | the advanced game starts like the classic one, with `high_score = 0` and `speed_increase = True` in place before its first tick | high (not executed) | Advanced.AdvancedInitRaises | Advanced.SnakeGameAdvanced.constructor |

## Left out

- Drawing, the window, the labels, the canvas, the game-over message box and window centring (`draw_game`, `draw_grid`, `update_score_display`, `show_game_over`, `run`). This is presentation only, with no game logic.
- The timer loop (`root.after`, `mainloop`). One `UpdateGame` call is one tick.
- Translating key names (`event.keysym.lower()`, "up"/"w" and so on). The handler takes the abstract `Key` it tells apart.
- The uniform distribution of `random.randint`. Only its range and the sequence of draws are modelled, passed in as `draws`.
- A full grid as written. The model places no food on the move that fills the grid, rather than modelling a loop that never returns. Win detection, which the source does not have, is also not modelled: that game ends through the failed next tick.
- `demo_snake_games` and the `__main__` block (console I/O). The colour fields. The unused `obstacles` and `power_ups` lists.
- Advanced.SnakeGameAdvanced.OnKeyPress: states restart's effect and the kept interval and invariant only. The effects of the other keys are those stated by `Snake.SnakeGame.OnKeyPress`, which it calls.

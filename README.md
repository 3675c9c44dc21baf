# RustyPong: the paddle-and-ball simulation in Dafny

This project models the game logic of RustyPong's `pong_lib` crate (`pong_lib/src/lib.rs`). That logic is a terminal Pong match: two paddles of 2x4 cells, one ball of one cell, scores, and a loop that reads a key, draws and moves the ball.

The project has four modules:

- `Platform` (`platform.dfy`) holds the types the crate is written against. Rust's `u16` and `i16` are Dafny newtypes, so every `u16` addition or subtraction in the model carries a range obligation. Each such obligation is the proof that the Rust operation cannot overflow or underflow, which would panic in a debug build. The module also holds ratatui's `Rect` and crossterm's `KeyCode`, `KeyModifiers` (a set of flags), `KeyEvent` and `Event`.
- `Rules` (`rules.dfy`) describes a match on plain integers (`GameView`). It has one function per state change:
  - `Initial` for `GameState::new`.
  - `BallMoved` for `move_pong_ball`.
  - `PaddleMoved` for `move_paddle`.
  - `KeyDispatch` for the decision in `read_key`.
  - `Ticked` and `Played` for one pass and a run of passes of the loop in `run`.
  - `Inv` is the invariant every reachable state keeps.
- `Game` (`game.dfy`) mirrors the Rust structs as classes: `Player`, `PongBall`, `GameState` and `TerminalOutput`.
  - The methods update the fields in place, computing in `u16` and `i16` as the source does.
  - Each state-changing method is proved to leave the state that the matching `Rules` function gives for the old state, read through `View()`.
  - The body of `move_pong_ball` is split into its four blocks, called in the source's order: `BounceOffWalls`, `BounceOffPaddles`, `ScorePoints` and `StepBall`.
  - All four blocks test the ball cell `(x, y)` that was read before anything moved, as the source does.
- `Properties` (`properties.dfy`) proves what the rules promise:
  - the layout of a new game;
  - the wall, paddle, scoring and step rules of a tick;
  - the clamp of the paddle keys and its inverse;
  - the key dispatch;
  - that a run ends on Ctrl-C;
  - worked ticks on the 160x40 arena that `pong_game` builds.

The invariant `Inv` covers these facts:

- both paddles keep their columns;
- each paddle's top row stays below the top border, and its row `y + 4` stays above the bottom border;
- scores stay within `u16`;
- each velocity component is +1 or -1;
- the ball stays inside the arena, between row `top + 1` and the last row;
- on those two edge rows the ball is always heading into the wall, so it bounces on the next tick.

From this invariant, the `y -= 1` and `x -= 1` of the final step can never underflow.

`ArenaOk` is the condition on the arena. The borders `x + width` and `y + height` must fit in `u16`. `x + width` must be at least 4, so that the `opponent.x - 1` of the hit test stays non-negative. The cell the code uses as the centre, `((x + width) / 2, (y + height) / 2)`, must lie at least one column and three rows inside the borders.

Three behaviours of the code are worth stating outright:

- The serve cell `((x + width) / 2, (y + height) / 2)` is the arena's centre only when the arena's corner is at (0, 0). That holds for both callers, because `TerminalOutput::new` builds `Rect::new(0, 0, w, h)`.
- The code's borders are half-open, with top = `y` and bottom = `y + height`, and the ball bounces when `y <= top + 1` or `y >= bottom - 1`. Against the frame that `draw` renders on the arena's outer rows, the ball turns one row below the top frame line, but it reaches the bottom frame line itself before it turns. On the 160x40 arena it reaches row 39 but never row 0.
- On a tick that scores, the ball steps from the centre cell, not from where it was (`Properties.Step`). Moving a paddle down is allowed only while `y + 4 + 1 < bottom`.

## Model

| member | source | states |
|---|---|---|
| `Game.Player.constructor` | pong_lib/src/lib.rs:23-27 | a new player has score 0 and the given cell |
| `Game.PongBall.constructor` | pong_lib/src/lib.rs:40-45 | a new ball has the given `Rect` and velocity (1, 1) |
| `Game.PongBall.SwitchXDirection` | pong_lib/src/lib.rs:47-49 | the horizontal velocity is negated, the vertical one and the position are kept; `i16::MIN` is excluded because `*= -1` overflows on it |
| `Game.GameState.constructor` | pong_lib/src/lib.rs:62-85 | the `u16` computations of `GameState::new` cannot overflow on an `ArenaOk` arena, and they produce `Rules.Initial` with the invariant holding |
| `Rules.Initial` | pong_lib/src/lib.rs:62-85 | the state `GameState::new` builds satisfies the invariant: paddles strictly between the borders, ball inside moving (1, 1), scores in range |
| `Properties.InitialLayout` | pong_lib/src/lib.rs:62-85 | both scores are 0; the paddles sit one free column in from their side walls and share a top row two above the ball's row; the ball is on the centre cell `((x+w)/2, (y+h)/2)` moving (1, 1) |
| `Game.Player.GetPosition` | pong_lib/src/lib.rs:29-31 | returns the player's column and row |
| `Game.GameState.GetPlayerPaddlePos` | pong_lib/src/lib.rs:87-89 | returns the player's paddle cell, with no precondition |
| `Game.GameState.GetOpponentPaddlePos` | pong_lib/src/lib.rs:91-93 | returns the opponent's paddle cell, with no precondition |
| `Game.GameState.GetGameBorders` | pong_lib/src/lib.rs:95-98 | returns (top, bottom, left, right), with top = `y` and left = `x`, spanning exactly `height` rows and `width` columns |
| `Game.GameState.ResetPongPosition` | pong_lib/src/lib.rs:100-103 | the ball becomes the 1x1 cell `((x+w)/2, (y+h)/2)`; the velocity is not touched |
| `Game.GameState.MovePongBall` | pong_lib/src/lib.rs:105-158 | no `u16`/`i16` operation of the tick overflows, given room in the score about to rise; the new state is `Rules.BallMoved` of the old one and the invariant still holds |
| `Game.GameState.BounceOffWalls` | pong_lib/src/lib.rs:117-119 | the vertical velocity is negated exactly when the pre-tick row is at most `top + 1` or at least `bottom - 1` |
| `Game.GameState.BounceOffPaddles` | pong_lib/src/lib.rs:121-134 | the horizontal velocity is negated once for each paddle the pre-tick cell touches (column `player.x + 2`, or `opponent.x - 1`, and rows `paddle.y ..= paddle.y + 4`); the vertical velocity is kept |
| `Game.GameState.ScorePoints` | pong_lib/src/lib.rs:136-146 | `x <= arena.x` adds one to the opponent's score, `x >= arena.x + width - 1` one to the player's; each point negates the horizontal velocity and moves the ball to the centre cell; otherwise the ball's cell is kept |
| `Game.GameState.StepBall` | pong_lib/src/lib.rs:148-157 | the ball moves one cell per axis toward the sign of its velocity |
| `Rules.BallMoved` | pong_lib/src/lib.rs:105-158 | one tick keeps the invariant (unit velocities, ball inside the arena, paddles inside); it leaves the paddles and the arena as they were; each score rises by 0 or 1 |
| `Rules.StepInRange` | pong_lib/src/lib.rs:148-157 | the final velocities are ±1 and the stepped cell stays within `0..=0xFFFF`, so `y -= 1` / `x -= 1` never underflow |
| `Properties.WallBounce` | pong_lib/src/lib.rs:117-119 | the vertical velocity reverses if and only if the ball is on row `top + 1` or row `bottom - 1` of the code's half-open borders, and it then points back inside; otherwise it is unchanged |
| `Properties.HorizontalBounce` | pong_lib/src/lib.rs:121-146 | the horizontal velocity ends reversed if and only if an odd number of the two paddle hits and two edge checks fire; the vertical velocity is decided by the wall rule alone |
| `Properties.PaddleReturnsBall` | pong_lib/src/lib.rs:121-134 | in an arena wider than four columns, a ball touching exactly one paddle has its horizontal velocity reversed |
| `Properties.Scoring` | pong_lib/src/lib.rs:136-146 | the opponent gains exactly one point when `x <= arena.x`, the player exactly one when `x >= arena.x + width - 1`; scores never fall; with width > 1 at most one point per tick; a point without a paddle hit reverses the ball and serves it from the centre column |
| `Properties.Step` | pong_lib/src/lib.rs:148-157 | after the checks the ball moves exactly one cell in each axis in the sign of its final velocity: from its old cell, or from the centre cell after a point |
| `Rules.PaddleMoved` | pong_lib/src/lib.rs:160-192 | keeps both paddles strictly between the borders; never changes the ball, the scores or a paddle's column; only `w`/`s` change the player's paddle, only `Up`/`Down` the opponent's; other keys change nothing |
| `Game.GameState.MovePaddle` | pong_lib/src/lib.rs:160-192 | the `y - 1` and `y + 4 + 1` of the clamp cannot underflow or overflow; only the paddles' rows may change, and the new state is `Rules.PaddleMoved` of the old one |
| `Properties.UpDownInverse` | pong_lib/src/lib.rs:169-191 | a `w` that moved the player's paddle is undone by `s` and vice versa; likewise `Up`/`Down` for the opponent |
| `Properties.ClampStops` | pong_lib/src/lib.rs:169-191 | `w` (`Up`) is a no-op exactly when the paddle's top row is `top + 1`; `s` (`Down`) is a no-op exactly when its row `y + 4` is `bottom - 1` |
| `Rules.KeyDispatch` | pong_lib/src/lib.rs:228-245 | a steering decision always names one of `w`, `s`, `Up`, `Down` |
| `Properties.Dispatch` | pong_lib/src/lib.rs:230-242 | the event quits if and only if it is `c` with exactly the Control modifier; it steers if and only if it is `w`/`s`/`Up`/`Down` with no modifier, steering that key; every non-key event is ignored |
| `Game.TerminalOutput.constructor` | pong_lib/src/lib.rs:201-206 | the game is built on the arena with corner (0, 0) and starts in `Rules.Initial` |
| `Game.TerminalOutput.ReadKey` | pong_lib/src/lib.rs:228-245 | returns false exactly for Ctrl-C; an unmodified steering key moves a paddle as `Rules.PaddleMoved`; every other event changes nothing |
| `Rules.Ticked` | pong_lib/src/lib.rs:214-221 | defined exactly on the passes the source completes without overflow: the poll quits, or the score the ball's column would raise is below 0xFFFF; one pass keeps the invariant; it continues if and only if the polled event is not Ctrl-C; a quit changes nothing; each score rises by at most one |
| `Game.TerminalOutput.Tick` | pong_lib/src/lib.rs:214-221 | key handling, then the ball's move, as `Rules.Ticked`, under the same exact no-overflow precondition |
| `Rules.Played` | pong_lib/src/lib.rs:214-221 | a run of loop passes keeps the invariant, and each score rises by at most one per pass and never falls |
| `Game.TerminalOutput.Run` | pong_lib/src/lib.rs:208-226 | the loop leaves the state `Rules.Played` gives and reports a quit if and only if some polled event was Ctrl-C |
| `Properties.QuitEndsRun` | pong_lib/src/lib.rs:214-217 | events after a Ctrl-C have no effect: the run equals the run cut just before the quit |
| `Properties.PlayedAppend` | pong_lib/src/lib.rs:214-221 | running two stretches of polls in turn equals running them joined, when the first has no Ctrl-C |
| `Properties.ScoresNeverFall` | pong_lib/src/lib.rs:214-221 | over any run, a longer prefix of the polls ends with scores at least as high as a shorter one |
| `Properties.Initial160x40` | pong_game/src/main.rs:11-12 | on the 160x40 arena of the terminal game, the paddles start in columns 1 and 157 at row 18 and the ball on (80, 20) |
| `Properties.FirstTick` | pong_lib/src/lib.rs:105-158 | the first tick of that game moves the ball from (80, 20) to (81, 21) and changes nothing else |
| `Properties.TopBounce` | pong_lib/src/lib.rs:117-119 | a ball on row 1 moving up turns down and moves to row 2 |
| `Properties.LeftEdgePoint` | pong_lib/src/lib.rs:136-140 | a ball on column 0 moving left gives the opponent one point and is served from the centre to (81, 21), moving right |
| `Properties.CtrlCStopsGame` | pong_lib/src/lib.rs:214-217 | with polls [none, Ctrl-C, `w`], the game does one tick and stops; the `w` is never handled |

## Left out

- The terminal I/O of `TerminalOutput::run` (raw mode, alternate screen, setup and teardown errors) and its 50 ms `event::poll` pacing. `Run` takes the outcome of each poll as a finite sequence of optional events instead of an endless loop.
- `TerminalOutput::draw`: ratatui rendering, which reads the state and does not change it.
- `event::read()` inside `read_key` and its I/O error. `ReadKey` receives the event that was read.
- The `kind` and `state` fields of crossterm's `KeyEvent`, which `read_key` skips with `..`.
- `KeyCode`s other than characters, `Up` and `Down` are one value, `OtherKey`, because the game treats them all alike.
- Release-build wrap-around of `u16`: the model takes the debug-build semantics, where an overflow panics. Each such overflow is excluded by a precondition or proved impossible.
- `Game.GameState.constructor`: its precondition `ArenaOk` is stronger than the overflow checks of `GameState::new` alone. Arenas on which the source starts without a panic, but where the paddles or the serve cell fall outside the borders, are not modelled. An example is a corner far from (0, 0), where `(x + width) / 2` lies left of the arena.
- `Game.TerminalOutput.constructor`: requires `width * height <= 0xFFFF` as well as `ArenaOk`. ratatui's `Rect::new` shrinks larger rectangles with a floating-point aspect-ratio computation, which is not modelled. `ArenaOk` excludes the same arenas as for `Game.GameState.constructor`. Both callers, at 160x40 and 80x40, meet both conditions.
- `Rules.Played`: requires room in both `u16` scores for one point per pass. This is a sufficient bound rather than the exact condition under which `score += 1` would overflow.
- `Game.TerminalOutput.Run`: the same score-room precondition as `Rules.Played`.
- Networked play is not part of this model. `pong_server/src/main.rs` binds a TCP listener, accepts two players and calls `run_server` (pong_server/src/main.rs:37), but `lib.rs` does not define `run_server`. So there is no snapshot encoding, follower loop or lockstep exchange to model.
- `main.rs` (argument parsing, IP address parsing and empty async stubs) and `pong_game/src/main.rs` (builds a 160x40 `TerminalOutput` and calls `run`) hold no game logic.

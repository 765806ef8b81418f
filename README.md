# Pong: the simulation step, modelled in Dafny

The game is a browser pong: a human-controlled paddle on the left, a
computer-controlled paddle on the right, a ball, and a score to 10. Its
whole logic is one JavaScript file, `pong.js`. This project models the part
of it that decides what happens: one tick of `gameLoop` (the paddle moves,
the computer's dead-zone tracking, the ball's flight, the wall and paddle
bounces, scoring and the end of the match), `resetGame`, `resetBall`, and
the arithmetic of `resizeCanvas` that fits an 800:600 canvas into the
viewport and scales the paddles and the ball.

The key intents (W or Up arrow, S or Down arrow, R) and the values
`Math.random()` would return are parameters of a tick. With them given, a
tick is deterministic. Positions and speeds are `real`s.

Files and modules:

- `fit.dfy`, module `Fit`: the field sizes, `FitViewport` (the aspect-ratio
  fit), `Resized` (fit plus scaling) and the predicate `Scaled` that every
  resized field satisfies.
- `rules.dfy`, module `Rules`: the match state as a value (`Match`), one
  tick as a function (`Step`) built from the phases of `gameLoop`
  (`MovePlayer`, `MoveComputer`, `MoveBall`, `Score`), the two resets, the
  invariant `Inv` of reachable states, repeated ticks (`Run`), and the
  lemmas about them.
- `game.dfy`, module `Pong`: the class `Game`. Its fields are the
  variables the source's closures share and reassign in place. Its methods
  (`Tick`, `ResetGame`, `ResetBall`, `Resize` and the phases of a tick)
  update those fields statement by statement as the source does. Each
  method is proved to leave exactly the state the `Rules` and `Fit`
  functions describe, and `Tick`, `ResetGame` and `Resize` keep the object
  invariant `Valid()`.
- `restart_key.dfy`, module `RestartKey`: the restart key as wired in the
  source (see Findings).
- `scenarios.dfy`, module `Scenarios`: concrete ticks and resizes worked
  through the model.

Points where the code behaves otherwise than one might expect of a pong
game, and where the model follows the code:

- A ball reflected by a paddle is not kept in play if its edge has already
  crossed the border in that tick. For example, a ball at (5, 300) moving
  (-5, 0) is hit by the player paddle over [250, 350] and turned to +5; but
  its left edge is then at -8, so the same tick also scores for the
  computer, and `resetBall` reverses the ball again to -5
  (`Scenarios.PaddleHitThenPoint`).
- The player paddle is never clamped between the walls; only each step is
  guarded. The model proves the bound the code does keep: the paddle top
  stays strictly within one step (10) beyond either wall position.
- The two paddle checks are independent, not exclusive: if both fired, the
  horizontal direction would be reversed twice and end unchanged
  (`Rules.BothPaddlesLastWins`). On a resized field the two checks cannot
  both fire (`Rules.PaddleHitsExclusive`).
- The serve's vertical speed, `Math.random() * 10 - 5`, lies in [-5, 5),
  not in [-5, 5] as the source comment at line 214 says.

Arithmetic notes. The source's test `newWidth / newHeight > 800 / 600` is
written as `newWidth * 600 > newHeight * 800`. For a positive height the two
agree. For a zero height JavaScript gives Infinity (wider) or NaN (not wider),
which is what the multiplied-out test gives too; either way the field is 0
by 0. The hit deflection `deltaY * 0.2` is written `deltaY / 5`, the same
real number. Constants that multiply are written as literals, as in the
source.

## Model

| member | source | states |
|---|---|---|
| Fit.FitViewport | pong.js:47-56 | the fitted canvas has width:height exactly 800:600, fits inside the viewport, and fills it in one dimension |
| Fit.Resized | pong.js:46-68 | after a resize the paddle width, paddle height and ball radius are 15, 100 and 8 times width/800, and the canvas fits the viewport at 800:600 |
| Fit.ScaledSizes | pong.js:64-68 | on a resized field the paddle is no taller than the field, and the two paddles plus the ball's diameter are narrower than the field |
| Rules.ServeDirection | pong.js:82-83 | a serve component is 5 or -5 |
| Rules.ResetGame | pong.js:73-88 | reset: both scores 0, running, ball at the centre, each speed component 5 or -5, both paddles centred vertically |
| Rules.ResetBall | pong.js:209-215 | after a point the ball is at the centre, its horizontal speed reversed, its vertical speed in [-5, 5), and nothing else changes |
| Rules.MovePlayer | pong.js:133-138 | the player paddle moves by exactly 10 or not at all; up only if held and below the top; down only if held and above the bottom position after the up move; it keeps within one step of the walls |
| Rules.MoveComputer | pong.js:146-154 | the computer paddle ends between the walls (given the paddle fits) and moves at most 4; from between the walls, a centre more than 35 above the ball moves down by 4 (clamped at the bottom position), more than 35 below it moves up by 4 (clamped at the top), and inside the dead zone it does not move |
| Rules.Score | pong.js:190-206 | the left exit gives the computer exactly one point, else the right exit the player; no exit changes nothing; the match stops exactly when the scorer reaches 10, and that side is announced |
| Rules.HitsWall | pong.js:162 | the wall test on the ball's new height, strict as in the source; what a hit does is stated by `Rules.WallBounce` |
| Rules.HitsPlayerPaddle | pong.js:168-171 | the player paddle test (x-span overlap, centre strictly between the paddle's top and bottom); stated about by `Rules.PlayerPaddleBounce` and `Rules.PaddleHitsExclusive` |
| Rules.HitsComputerPaddle | pong.js:179-182 | the mirror test for the computer paddle; stated about by `Rules.ComputerPaddleBounce` and `Rules.PaddleHitsExclusive` |
| Rules.MoveBall | pong.js:157-186 | the ball ends at its old position plus its old velocity, its horizontal speed kept or reversed, and no field other than the ball's changes |
| Rules.Play | pong.js:133-186 | the paddle and ball phases of a tick move the ball by its velocity and leave both scores and the running flag as they were |
| Rules.Step | pong.js:127-215 | a tick announces a winner exactly when it stops a running match, and the announced side then has at least 10 points; its branches are stated by `Rules.FinishedTickIsNoOp`, `Rules.RestartTick`, `Rules.ScoreTick` and `Rules.StepKeepsInv` |
| Rules.FinishedTickIsNoOp | pong.js:127-130 | a tick of a stopped match changes nothing |
| Rules.RestartTick | pong.js:139-142 | with R held the tick ends in exactly the reset state, with no AI, ball or scoring update, and that state satisfies the invariant |
| Rules.PaddlesTick | pong.js:133-154 | without R each paddle ends where its own rule puts it, whatever the ball does |
| Rules.BallAdvances | pong.js:157-159 | when nobody scores, the ball has moved by exactly its old velocity |
| Rules.WallBounce | pong.js:157-164 | away from the paddles the ball is at its old position plus its old velocity, even past a wall, and a wall contact there negates only the vertical speed |
| Rules.PlayerPaddleBounce | pong.js:168-176 | a player paddle hit reverses the horizontal speed and sets the vertical speed to 0.2 times the offset from the paddle centre |
| Rules.ComputerPaddleBounce | pong.js:179-186 | the same for the computer paddle |
| Rules.BothPaddlesLastWins | pong.js:168-186 | if both paddle checks fired, the horizontal speed would be reversed twice and the computer paddle's deflection would stand |
| Rules.PaddleHitsExclusive | pong.js:168-186 | on a resized field the ball never meets both paddle hit tests at once |
| Rules.ScoreTick | pong.js:190-206 | in one tick at most one score rises, by exactly one, the left exit first; no score falls; the match stops exactly when the scorer reaches 10, with that side as winner |
| Rules.ServeAfterPoint | pong.js:190-215 | after a point that does not end the match the ball is centred, heading back, with vertical speed in [-5, 5), and the match runs on |
| Rules.PlayKeepsInv | pong.js:133-186 | moving the paddles and the ball keeps the paddle bounds and touches no score |
| Rules.ScoreKeepsInv | pong.js:190-206 | scoring keeps the scores at most 10, never both 10, and the match running exactly while nobody has 10 |
| Rules.StepKeepsInv | pong.js:127-215 | every tick keeps the invariant: computer paddle between the walls, player paddle within one step of them, match over exactly when one side has 10 |
| Rules.RunFinished | pong.js:127-130 | once the match is over, any number of ticks changes nothing |
| Rules.RunKeepsInv | pong.js:127-215 | any number of ticks keeps the invariant |
| Rules.RunScoresGrow | pong.js:190-206 | without R, scores never fall over any number of ticks, and their sum grows by at most one per tick |
| Pong.Game.constructor | pong.js:238-240 | at start-up the canvas is fitted and scaled to the viewport and the match is in the reset state |
| Pong.Game.Resize | pong.js:46-71 | a resize leaves the fitted and scaled sizes and the reset state, and the object invariant holds |
| Pong.Game.ResetGame | pong.js:73-88 | the fields become the reset state, the sizes are untouched, the invariant holds |
| Pong.Game.ResetBall | pong.js:209-215 | the fields become the re-served state of `Rules.ResetBall` |
| Pong.Game.MovePlayerPaddle | pong.js:133-138 | only the player paddle changes, to `Rules.MovePlayer` of its old value |
| Pong.Game.MoveComputerPaddle | pong.js:146-154 | only the computer paddle changes, to `Rules.MoveComputer` of its old value |
| Pong.Game.MoveBall | pong.js:157-186 | the ball's position and velocity become those of `Rules.MoveBall` |
| Pong.Game.Score | pong.js:190-206 | scores, running flag and ball become those of `Rules.Score`, and the announced winner is returned |
| Pong.Game.Tick | pong.js:127-215 | one tick leaves exactly the state and announced winner of `Rules.Step`, keeps the sizes and the object invariant |
| RestartKey.GameLoopAsWritten | pong.js:89-142 | gameLoop as written, with the nested call of line 92: whenever a call completes, it ends exactly as the corrected tick `Rules.Step` does |
| RestartKey.RestartKeyOverflows | pong.js:89-142 | as written, holding R in a running match ends every call of gameLoop in a stack overflow, however deep the stack |
| RestartKey.RestartKeyExample | pong.js:89-142 | the same for a concrete match on the 800 by 600 field |
| RestartKey.AgreesWithoutRestart | pong.js:127-215 | without R, or once the match is over, the code as written and the modelled tick agree |
| Scenarios.ResizeExamples | pong.js:46-68 | 800 by 600 gives the base sizes 15, 100 and 8; 400 by 300 gives 7.5, 50 and 4; a wide or tall viewport is cut to 800:600 |
| Scenarios.FreeFlight | pong.js:127-206 | ball at (400, 300) moving (5, 5) with nothing in range ends at (405, 305) and nothing else changes |
| Scenarios.PaddleHitThenPoint | pong.js:166-215 | ball at (5, 300) moving (-5, 0) is reflected by the player paddle, then scores for the computer in the same tick and is served back |
| Scenarios.ComputerWins | pong.js:189-197 | the computer at 9 scoring reaches 10, the match stops, the computer is announced, the ball is not re-served |

## Left out

- Drawing: `drawRect`, `drawCircle`, the background, paddle and ball fills and the centre line (pong.js:95-105, 218-231). They change no state.
- The DOM and jQuery: the keydown and keyup handlers and their `keys` map (pong.js:28-39) are replaced by the three key intents passed to a tick; the restart button's wiring (pong.js:42-44); the score text (`updateScoreboard`, pong.js:107-110, and lines 76-77); the game-over markup of `showGameOver` (pong.js:112-124), of which only `gameRunning = false` and the winner are kept, as the winner `Tick` returns; the modal removal (pong.js:89-91); the container style (pong.js:61-62).
- Scheduling: `requestAnimationFrame` (pong.js:233-235) and the window resize listener (pong.js:239-240). `Rules.Run` models ticks run one after the other. The direct `gameLoop()` call at the end of `resetGame` (pong.js:92) is modelled only for the restart key, in `RestartKey`. Not modelled is its other effect: a restart by button or a resize while the loop runs starts a second animation-frame chain, so the game then ticks twice per frame.
- Randomness: `Math.random()` (pong.js:82-83, 214) is replaced by parameters in [0, 1).
- Floating point: positions and speeds are exact reals, so IEEE rounding is not modelled, and neither is the browser's truncation of a non-integer `canvas.width` or `canvas.height` (pong.js:58-59).
- The values the variables get at their declarations (pong.js:6-21) before the first resize: the resize at start-up overwrites all of them, and the constructor models the state after it.
- RestartKey.GameLoopAsWritten: the nested resets draw new random numbers in the source; the model reuses the same draws, which does not change the outcome (none of those calls completes).

## Findings

| source | as written | input that shows it | evidently intended | confidence | as-written member | corrected member |
|---|---|---|---|---|---|---|
| pong.js:92 | with R held, `gameLoop` calls `resetGame`, which calls `gameLoop` again before returning; no key-up can be handled in between, so the nested call sees R held and recurses again; the `return` at line 141 is never reached and the call stack overflows, which also stops the animation-frame chain | any running match with the R key held at a tick, e.g. the 800 by 600 field, ball at the centre, scores 3 and 4 | reset the match and end the tick, then play on (the comment at line 141 says the return is there to leave the loop after a reset) | high; not executed | RestartKey.RestartKeyOverflows | Rules.RestartTick |

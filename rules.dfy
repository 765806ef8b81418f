/**
 * One tick of the pong simulation as a function of the match state, the
 * keys held and the random draws of the tick (the body of gameLoop without
 * its drawing), together with the two reset operations and the properties
 * a tick keeps.
 */
module Rules {
  import opened Fit

  /** A match ends when one side reaches this score. */
  const WinningScore: nat := 10
  /** Distance the player paddle moves per tick while a key is held. */
  const PaddleSpeed: real := 10.0
  /** Distance the computer paddle moves per tick; slower, to keep it beatable. */
  const ComputerPaddleSpeed: real := 4.0
  /** Half-width of the band around the ball in which the computer paddle holds still. */
  const DeadZone: real := 35.0
  /** Speed of each component of the ball's velocity at the start of a match. */
  const ServeSpeed: real := 5.0

  datatype Option<T> = None | Some(value: T)

  datatype Side = Player | Computer

  /** The state a tick updates: paddle tops, ball centre and velocity, scores. */
  datatype Match = Match(
    playerY: real,
    computerY: real,
    ballX: real,
    ballY: real,
    ballSpeedX: real,
    ballSpeedY: real,
    playerScore: nat,
    computerScore: nat,
    gameRunning: bool)

  /**
   * What a tick reads from outside: the three key intents (W or Up arrow,
   * S or Down arrow, R) and the values Math.random() would return, in the
   * order the tick draws them.
   */
  datatype Input = Input(
    up: bool,
    down: bool,
    restart: bool,
    dirX: real,
    dirY: real,
    serve: real)

  /** The new state, and the winner announced to the player if the match ended. */
  datatype TickResult = TickResult(next: Match, gameOver: Option<Side>)

  /** Math.random() returns values in [0, 1). */
  predicate DrawsInRange(i: Input)
  {
    0.0 <= i.dirX < 1.0 && 0.0 <= i.dirY < 1.0 && 0.0 <= i.serve < 1.0
  }

  /** `Math.random() > 0.5 ? 5 : -5`: a random serve direction on one axis. */
  function ServeDirection(draw: real): (v: real)
    ensures v == ServeSpeed || v == -ServeSpeed
  {
    if draw > 0.5 then ServeSpeed else -ServeSpeed
  }

  /** The side that reached the winning score, if any. */
  function Winner(m: Match): Option<Side>
  {
    if m.computerScore >= WinningScore then Some(Computer)
    else if m.playerScore >= WinningScore then Some(Player)
    else None
  }

  /**
   * resetGame: scores zeroed, ball centred with a random diagonal velocity,
   * both paddles centred vertically, match running.
   */
  function ResetGame(f: Field, dirX: real, dirY: real): (m: Match)
    ensures m.playerScore == 0 && m.computerScore == 0 && m.gameRunning
    ensures m.ballX == f.width / 2.0 && m.ballY == f.height / 2.0
    ensures m.ballSpeedX in {ServeSpeed, -ServeSpeed} && m.ballSpeedY in {ServeSpeed, -ServeSpeed}
    ensures m.playerY == m.computerY
    ensures m.playerY + f.paddleHeight / 2.0 == f.height / 2.0
  {
    var centre := f.height / 2.0 - f.paddleHeight / 2.0;
    Match(centre, centre, f.width / 2.0, f.height / 2.0,
          ServeDirection(dirX), ServeDirection(dirY), 0, 0, true)
  }

  /**
   * resetBall: the ball goes back to the centre, its horizontal direction is
   * reversed and its vertical speed is drawn from [-5, 5). Paddles, scores
   * and the running flag are untouched.
   */
  function ResetBall(f: Field, m: Match, serve: real): (r: Match)
    requires 0.0 <= serve < 1.0
    ensures r.ballX == f.width / 2.0 && r.ballY == f.height / 2.0
    ensures r.ballSpeedX == -m.ballSpeedX
    ensures -ServeSpeed <= r.ballSpeedY < ServeSpeed
    ensures r.(ballX := m.ballX, ballY := m.ballY, ballSpeedX := m.ballSpeedX, ballSpeedY := m.ballSpeedY) == m
  {
    m.(ballX := f.width / 2.0, ballY := f.height / 2.0,
       ballSpeedX := -m.ballSpeedX, ballSpeedY := serve * 10.0 - 5.0)
  }

  /**
   * The player paddle: up first, if held and the paddle top is below the
   * top wall; then down, if held and the paddle (after the up move) is above
   * the bottom position. It is never clamped, so it can overshoot either
   * wall, but by less than one step.
   */
  function MovePlayer(f: Field, y: real, up: bool, down: bool): (r: real)
    ensures r == y - PaddleSpeed || r == y || r == y + PaddleSpeed
    ensures r == y - PaddleSpeed <==> up && y > 0.0 && !(y - PaddleSpeed < f.height - f.paddleHeight && down)
    ensures r == y + PaddleSpeed <==> down && y < f.height - f.paddleHeight && !(up && y > 0.0)
    ensures -PaddleSpeed < y < f.height - f.paddleHeight + PaddleSpeed ==>
              -PaddleSpeed < r < f.height - f.paddleHeight + PaddleSpeed
  {
    var afterUp := if up && y > 0.0 then y - PaddleSpeed else y;
    if down && afterUp < f.height - f.paddleHeight then afterUp + PaddleSpeed else afterUp
  }

  /**
   * The computer paddle follows the ball's height with a dead zone of 35
   * around it, one step of 4 per tick, and is then clamped between the walls.
   */
  function MoveComputer(f: Field, y: real, ballY: real): (r: real)
    ensures f.paddleHeight <= f.height ==> 0.0 <= r <= f.height - f.paddleHeight
    ensures 0.0 <= y <= f.height - f.paddleHeight ==> y - ComputerPaddleSpeed <= r <= y + ComputerPaddleSpeed
    ensures 0.0 <= y <= f.height - f.paddleHeight && y + f.paddleHeight / 2.0 < ballY - DeadZone ==> y <= r
    ensures 0.0 <= y <= f.height - f.paddleHeight && y + f.paddleHeight / 2.0 > ballY + DeadZone ==> r <= y
    ensures (0.0 <= y <= f.height - f.paddleHeight &&
             ballY - DeadZone <= y + f.paddleHeight / 2.0 <= ballY + DeadZone) ==> r == y
    ensures 0.0 <= y <= f.height - f.paddleHeight && y + f.paddleHeight / 2.0 < ballY - DeadZone ==>
              r == (if y + ComputerPaddleSpeed < f.height - f.paddleHeight then y + ComputerPaddleSpeed
                    else f.height - f.paddleHeight)
    ensures 0.0 <= y <= f.height - f.paddleHeight && y + f.paddleHeight / 2.0 > ballY + DeadZone ==>
              r == (if y - ComputerPaddleSpeed > 0.0 then y - ComputerPaddleSpeed else 0.0)
  {
    var centre := y + f.paddleHeight / 2.0;
    var moved :=
      if centre < ballY - DeadZone && y < f.height - f.paddleHeight then y + ComputerPaddleSpeed
      else if centre > ballY + DeadZone && y > 0.0 then y - ComputerPaddleSpeed
      else y;
    var aboveTop := if moved < 0.0 then 0.0 else moved;
    if aboveTop > f.height - f.paddleHeight then f.height - f.paddleHeight else aboveTop
  }

  /** The ball touches the top or the bottom wall. */
  predicate HitsWall(f: Field, ballY: real)
  {
    ballY - f.ballRadius < 0.0 || ballY + f.ballRadius > f.height
  }

  /**
   * The ball overlaps the left paddle's x-span and its centre lies strictly
   * between the paddle's top and bottom.
   */
  predicate HitsPlayerPaddle(f: Field, ballX: real, ballY: real, paddleY: real)
  {
    && ballX - f.ballRadius < f.paddleWidth
    && ballX + f.ballRadius > 0.0
    && ballY > paddleY
    && ballY < paddleY + f.paddleHeight
  }

  /** The mirror image of HitsPlayerPaddle for the right paddle. */
  predicate HitsComputerPaddle(f: Field, ballX: real, ballY: real, paddleY: real)
  {
    && ballX + f.ballRadius > f.width - f.paddleWidth
    && ballX - f.ballRadius < f.width
    && ballY > paddleY
    && ballY < paddleY + f.paddleHeight
  }

  /**
   * Vertical speed after a hit: the offset from the paddle centre times 0.2
   * (written as a division by 5, the same real number).
   */
  function Deflect(f: Field, ballY: real, paddleY: real): real
  {
    (ballY - (paddleY + f.paddleHeight / 2.0)) / 5.0
  }

  /**
   * The ball advances by its velocity; touching the top or bottom wall at
   * its new position reverses its vertical speed. The position is not
   * corrected.
   */
  function Advance(f: Field, m: Match): Match
  {
    var y := m.ballY + m.ballSpeedY;
    m.(ballX := m.ballX + m.ballSpeedX, ballY := y,
       ballSpeedY := if HitsWall(f, y) then -m.ballSpeedY else m.ballSpeedY)
  }

  /** A hit on the player paddle reverses the ball and sets its angle. */
  function BounceOffPlayer(f: Field, m: Match): Match
  {
    if HitsPlayerPaddle(f, m.ballX, m.ballY, m.playerY) then
      m.(ballSpeedX := -m.ballSpeedX, ballSpeedY := Deflect(f, m.ballY, m.playerY))
    else m
  }

  /** A hit on the computer paddle reverses the ball and sets its angle. */
  function BounceOffComputer(f: Field, m: Match): Match
  {
    if HitsComputerPaddle(f, m.ballX, m.ballY, m.computerY) then
      m.(ballSpeedX := -m.ballSpeedX, ballSpeedY := Deflect(f, m.ballY, m.computerY))
    else m
  }

  /**
   * The ball's part of a tick: advance and wall, then the player paddle,
   * then the computer paddle, both checked whatever the first one found.
   */
  function MoveBall(f: Field, m: Match): (r: Match)
    ensures r.ballX == m.ballX + m.ballSpeedX && r.ballY == m.ballY + m.ballSpeedY
    ensures r.ballSpeedX == m.ballSpeedX || r.ballSpeedX == -m.ballSpeedX
    ensures r.(ballX := m.ballX, ballY := m.ballY, ballSpeedX := m.ballSpeedX, ballSpeedY := m.ballSpeedY) == m
  {
    BounceOffComputer(f, BounceOffPlayer(f, Advance(f, m)))
  }

  /**
   * The part of a tick between the key check and the scoring: the player
   * paddle, the computer paddle, then the ball.
   */
  function Play(f: Field, m: Match, up: bool, down: bool): (r: Match)
    ensures r.playerScore == m.playerScore && r.computerScore == m.computerScore
    ensures r.gameRunning == m.gameRunning
    ensures r.ballX == m.ballX + m.ballSpeedX && r.ballY == m.ballY + m.ballSpeedY
  {
    var py := MovePlayer(f, m.playerY, up, down);
    var cy := MoveComputer(f, m.computerY, m.ballY);
    MoveBall(f, m.(playerY := py, computerY := cy))
  }

  /** The ball's left edge is past the left border: the computer scores. */
  predicate LeftExit(f: Field, m: Match)
  {
    m.ballX - f.ballRadius < 0.0
  }

  /** The ball's right edge is past the right border: the player scores. */
  predicate RightExit(f: Field, m: Match)
  {
    m.ballX + f.ballRadius > f.width
  }

  /**
   * Scoring: the left exit is tested first. The scorer's count goes up by
   * one; at the winning score the match stops with that side as winner,
   * otherwise the ball is served again.
   */
  function Score(f: Field, m: Match, serve: real): (r: TickResult)
    requires 0.0 <= serve < 1.0
    ensures r.next.playerY == m.playerY && r.next.computerY == m.computerY
    ensures LeftExit(f, m) ==>
              r.next.computerScore == m.computerScore + 1 && r.next.playerScore == m.playerScore
    ensures !LeftExit(f, m) && RightExit(f, m) ==>
              r.next.playerScore == m.playerScore + 1 && r.next.computerScore == m.computerScore
    ensures !LeftExit(f, m) && !RightExit(f, m) ==> r == TickResult(m, None)
    ensures r.next.gameRunning <==> m.gameRunning && r.gameOver == None
    ensures r.gameOver == Some(Computer) <==> LeftExit(f, m) && m.computerScore + 1 >= WinningScore
    ensures r.gameOver == Some(Player) <==>
              !LeftExit(f, m) && RightExit(f, m) && m.playerScore + 1 >= WinningScore
  {
    if LeftExit(f, m) then
      var s := m.computerScore + 1;
      if s >= WinningScore then TickResult(m.(computerScore := s, gameRunning := false), Some(Computer))
      else TickResult(ResetBall(f, m.(computerScore := s), serve), None)
    else if RightExit(f, m) then
      var s := m.playerScore + 1;
      if s >= WinningScore then TickResult(m.(playerScore := s, gameRunning := false), Some(Player))
      else TickResult(ResetBall(f, m.(playerScore := s), serve), None)
    else
      TickResult(m, None)
  }

  /**
   * One call of gameLoop. A stopped match is left alone. The restart key
   * resets the match and ends the tick (the paddle moves made before the
   * key check are overwritten by the reset). Otherwise the paddles and ball
   * move and the scoring runs.
   */
  function Step(f: Field, m: Match, i: Input): (r: TickResult)
    requires DrawsInRange(i)
    ensures r.gameOver.Some? <==> m.gameRunning && !r.next.gameRunning
    ensures r.gameOver == Some(Computer) ==> r.next.computerScore >= WinningScore
    ensures r.gameOver == Some(Player) ==> r.next.playerScore >= WinningScore
  {
    if !m.gameRunning then TickResult(m, None)
    else if i.restart then TickResult(ResetGame(f, i.dirX, i.dirY), None)
    else Score(f, Play(f, m, i.up, i.down), i.serve)
  }

  /** Ticks one after the other, as the animation-frame schedule runs them. */
  function Run(f: Field, m: Match, inputs: seq<Input>): Match
    requires forall k :: 0 <= k < |inputs| ==> DrawsInRange(inputs[k])
    decreases |inputs|
  {
    if inputs == [] then m
    else Run(f, Step(f, m, inputs[0]).next, inputs[1..])
  }

  /**
   * What every reachable state satisfies: the computer paddle lies between
   * the walls; the player paddle overshoots a wall by less than one step;
   * the match runs exactly while nobody has reached the winning score, and
   * a finished match has exactly one side at the winning score.
   */
  ghost predicate Inv(f: Field, m: Match)
  {
    && 0.0 <= m.computerY <= f.height - f.paddleHeight
    && -PaddleSpeed < m.playerY < f.height - f.paddleHeight + PaddleSpeed
    && m.playerScore <= WinningScore && m.computerScore <= WinningScore
    && !(m.playerScore == WinningScore && m.computerScore == WinningScore)
    && (m.gameRunning <==> Winner(m) == None)
  }

  // ---------------------------------------------------------------------
  // Properties of one tick

  /** A tick of a stopped match changes nothing. */
  lemma FinishedTickIsNoOp(f: Field, m: Match, i: Input)
    requires DrawsInRange(i) && !m.gameRunning
    ensures Step(f, m, i) == TickResult(m, None)
  {
  }

  /**
   * Holding the restart key ends the tick in the reset state: scores zero,
   * ball centred with speed 5 or -5 on each axis, paddles centred, running;
   * nothing of the AI, ball or scoring update remains.
   */
  lemma RestartTick(f: Field, m: Match, i: Input)
    requires DrawsInRange(i) && m.gameRunning && i.restart
    ensures Step(f, m, i).next == ResetGame(f, i.dirX, i.dirY)
    ensures Step(f, m, i).gameOver == None
    ensures Scaled(f) ==> Inv(f, Step(f, m, i).next)
  {
    if Scaled(f) {
      ScaledSizes(f);
    }
  }

  /** Without the restart key both paddles move by their own rules, whatever the ball does. */
  lemma PaddlesTick(f: Field, m: Match, i: Input)
    requires DrawsInRange(i) && m.gameRunning && !i.restart
    ensures Step(f, m, i).next.playerY == MovePlayer(f, m.playerY, i.up, i.down)
    ensures Step(f, m, i).next.computerY == MoveComputer(f, m.computerY, m.ballY)
  {
  }

  /**
   * When nobody scores, the ball has advanced by exactly its old velocity,
   * with no correction of its position.
   */
  lemma BallAdvances(f: Field, m: Match, i: Input)
    requires DrawsInRange(i) && m.gameRunning && !i.restart
    requires var p := Play(f, m, i.up, i.down); !LeftExit(f, p) && !RightExit(f, p)
    ensures Step(f, m, i).next.ballX == m.ballX + m.ballSpeedX
    ensures Step(f, m, i).next.ballY == m.ballY + m.ballSpeedY
  {
  }

  /**
   * Away from the paddles, a wall contact at the new position negates the
   * vertical speed and nothing else; without one the velocity is kept. The
   * ball is left where its velocity took it, even past a wall.
   */
  lemma WallBounce(f: Field, m: Match, up: bool, down: bool)
    requires var p := Play(f, m, up, down);
      !HitsPlayerPaddle(f, p.ballX, p.ballY, p.playerY) &&
      !HitsComputerPaddle(f, p.ballX, p.ballY, p.computerY)
    ensures var p := Play(f, m, up, down);
      && p.ballX == m.ballX + m.ballSpeedX && p.ballY == m.ballY + m.ballSpeedY
      && p.ballSpeedX == m.ballSpeedX
      && (HitsWall(f, p.ballY) ==> p.ballSpeedY == -m.ballSpeedY)
      && (!HitsWall(f, p.ballY) ==> p.ballSpeedY == m.ballSpeedY)
  {
  }

  /**
   * A hit on the player paddle reverses the horizontal speed and replaces
   * the vertical speed by a fifth of the offset from the paddle centre.
   */
  lemma PlayerPaddleBounce(f: Field, m: Match, up: bool, down: bool)
    requires var p := Play(f, m, up, down);
      HitsPlayerPaddle(f, p.ballX, p.ballY, p.playerY) &&
      !HitsComputerPaddle(f, p.ballX, p.ballY, p.computerY)
    ensures var p := Play(f, m, up, down);
      && p.ballSpeedX == -m.ballSpeedX
      && p.ballSpeedY == 0.2 * (p.ballY - (p.playerY + f.paddleHeight / 2.0))
  {
  }

  /** The same for the computer paddle. */
  lemma ComputerPaddleBounce(f: Field, m: Match, up: bool, down: bool)
    requires var p := Play(f, m, up, down);
      !HitsPlayerPaddle(f, p.ballX, p.ballY, p.playerY) &&
      HitsComputerPaddle(f, p.ballX, p.ballY, p.computerY)
    ensures var p := Play(f, m, up, down);
      && p.ballSpeedX == -m.ballSpeedX
      && p.ballSpeedY == 0.2 * (p.ballY - (p.computerY + f.paddleHeight / 2.0))
  {
  }

  /**
   * If both paddle checks fired, the horizontal speed would be reversed
   * twice and the computer paddle's deflection, assigned last, would stand.
   */
  lemma BothPaddlesLastWins(f: Field, m: Match, up: bool, down: bool)
    requires var p := Play(f, m, up, down);
      HitsPlayerPaddle(f, p.ballX, p.ballY, p.playerY) &&
      HitsComputerPaddle(f, p.ballX, p.ballY, p.computerY)
    ensures var p := Play(f, m, up, down);
      && p.ballX == m.ballX + m.ballSpeedX && p.ballY == m.ballY + m.ballSpeedY
      && p.ballSpeedX == m.ballSpeedX
      && p.ballSpeedY == 0.2 * (p.ballY - (p.computerY + f.paddleHeight / 2.0))
  {
  }

  /** On a scaled field the ball can never touch both paddles at once. */
  lemma PaddleHitsExclusive(f: Field, x: real, y: real, py: real, cy: real)
    requires Scaled(f)
    ensures !(HitsPlayerPaddle(f, x, y, py) && HitsComputerPaddle(f, x, y, cy))
  {
    ScaledSizes(f);
  }

  /**
   * Scoring in one tick: at most one score goes up, by exactly one, the
   * computer's when the ball left on the left; no score goes down; the
   * match stops exactly when the scorer reaches the winning score, and that
   * side is announced as the winner.
   */
  lemma ScoreTick(f: Field, m: Match, i: Input)
    requires DrawsInRange(i) && m.gameRunning && !i.restart
    ensures var r := Step(f, m, i);
      && m.computerScore <= r.next.computerScore <= m.computerScore + 1
      && m.playerScore <= r.next.playerScore <= m.playerScore + 1
      && r.next.computerScore + r.next.playerScore <= m.computerScore + m.playerScore + 1
    ensures var r := Step(f, m, i); var p := Play(f, m, i.up, i.down);
      && (LeftExit(f, p) ==> r.next.computerScore == m.computerScore + 1)
      && (RightExit(f, p) && !LeftExit(f, p) ==> r.next.playerScore == m.playerScore + 1)
    ensures var r := Step(f, m, i);
      && (r.gameOver == Some(Computer) <==> r.next.computerScore >= WinningScore && r.next.computerScore > m.computerScore)
      && (r.gameOver == Some(Player) <==> r.next.playerScore >= WinningScore && r.next.playerScore > m.playerScore)
      && (r.next.gameRunning <==> r.gameOver == None)
  {
  }

  /**
   * After a point that does not end the match, the ball is back at the
   * centre, heading the other way, with a vertical speed in [-5, 5).
   */
  lemma ServeAfterPoint(f: Field, m: Match, i: Input)
    requires DrawsInRange(i) && m.gameRunning && !i.restart
    requires var p := Play(f, m, i.up, i.down); LeftExit(f, p) || RightExit(f, p)
    requires Step(f, m, i).gameOver == None
    ensures var r := Step(f, m, i).next; var p := Play(f, m, i.up, i.down);
      && r.ballX == f.width / 2.0 && r.ballY == f.height / 2.0
      && r.ballSpeedX == -p.ballSpeedX
      && -5.0 <= r.ballSpeedY < 5.0
      && r.gameRunning
  {
  }

  /** Moving the paddles and the ball keeps the invariant and touches no score. */
  lemma PlayKeepsInv(f: Field, m: Match, up: bool, down: bool)
    requires Scaled(f) && Inv(f, m) && m.gameRunning
    ensures var p := Play(f, m, up, down);
      && Inv(f, p) && p.gameRunning
      && p.playerScore == m.playerScore && p.computerScore == m.computerScore
  {
    ScaledSizes(f);
    var p := Play(f, m, up, down);
    assert p.playerY == MovePlayer(f, m.playerY, up, down);
    assert p.computerY == MoveComputer(f, m.computerY, m.ballY);
  }

  /** Scoring in a running match keeps the invariant. */
  lemma ScoreKeepsInv(f: Field, m: Match, serve: real)
    requires Inv(f, m) && m.gameRunning && 0.0 <= serve < 1.0
    ensures Inv(f, Score(f, m, serve).next)
  {
  }

  /** A tick keeps the invariant on a scaled field. */
  lemma StepKeepsInv(f: Field, m: Match, i: Input)
    requires Scaled(f) && Inv(f, m) && DrawsInRange(i)
    ensures Inv(f, Step(f, m, i).next)
  {
    if m.gameRunning {
      if i.restart {
        RestartTick(f, m, i);
      } else {
        PlayKeepsInv(f, m, i.up, i.down);
        ScoreKeepsInv(f, Play(f, m, i.up, i.down), i.serve);
      }
    }
  }

  // ---------------------------------------------------------------------
  // Properties of a sequence of ticks

  /** Once the match is over, no number of ticks changes anything. */
  lemma {:induction false} RunFinished(f: Field, m: Match, inputs: seq<Input>)
    requires forall k :: 0 <= k < |inputs| ==> DrawsInRange(inputs[k])
    requires !m.gameRunning
    ensures Run(f, m, inputs) == m
    decreases |inputs|
  {
    if inputs != [] {
      FinishedTickIsNoOp(f, m, inputs[0]);
      RunFinished(f, m, inputs[1..]);
    }
  }

  /**
   * Every state reached by ticking from a state that satisfies the
   * invariant satisfies it: in particular the computer paddle stays between
   * the walls, and the match is over exactly when a side has ten points.
   */
  lemma {:induction false} RunKeepsInv(f: Field, m: Match, inputs: seq<Input>)
    requires forall k :: 0 <= k < |inputs| ==> DrawsInRange(inputs[k])
    requires Scaled(f) && Inv(f, m)
    ensures Inv(f, Run(f, m, inputs))
    decreases |inputs|
  {
    if inputs != [] {
      StepKeepsInv(f, m, inputs[0]);
      RunKeepsInv(f, Step(f, m, inputs[0]).next, inputs[1..]);
    }
  }

  /**
   * Without the restart key scores never go down, and together they grow
   * by at most one point per tick.
   */
  lemma {:induction false} RunScoresGrow(f: Field, m: Match, inputs: seq<Input>)
    requires forall k :: 0 <= k < |inputs| ==> DrawsInRange(inputs[k])
    requires forall k :: 0 <= k < |inputs| ==> !inputs[k].restart
    ensures var r := Run(f, m, inputs);
      && m.playerScore <= r.playerScore
      && m.computerScore <= r.computerScore
      && r.playerScore + r.computerScore <= m.playerScore + m.computerScore + |inputs|
    decreases |inputs|
  {
    if inputs != [] {
      var next := Step(f, m, inputs[0]).next;
      if m.gameRunning {
        ScoreTick(f, m, inputs[0]);
      }
      RunScoresGrow(f, next, inputs[1..]);
    }
  }
}

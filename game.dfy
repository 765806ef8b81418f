/**
 * The game object: the variables gameLoop, resetGame, resetBall and
 * resizeCanvas share and reassign in place, with those operations as
 * methods. Each method is proved against the functions of Rules and Fit.
 */
module Pong {
  import opened Fit
  import opened Rules

  class Game {
    // Canvas size and the sizes scaled from it.
    var width: real
    var height: real
    var paddleWidth: real
    var paddleHeight: real
    var ballRadius: real

    // Paddle tops, ball centre and velocity.
    var playerY: real
    var computerY: real
    var ballX: real
    var ballY: real
    var ballSpeedX: real
    var ballSpeedY: real

    var playerScore: nat
    var computerScore: nat

    /** False once a side has won; gameLoop then does nothing. */
    var gameRunning: bool

    /** The canvas and element sizes. */
    ghost function Dimensions(): Field
      reads this
    {
      Field(width, height, paddleWidth, paddleHeight, ballRadius)
    }

    /** The state a tick updates. */
    ghost function State(): Match
      reads this
    {
      Match(playerY, computerY, ballX, ballY, ballSpeedX, ballSpeedY,
            playerScore, computerScore, gameRunning)
    }

    /** The sizes are those of some resize and the state is reachable. */
    ghost predicate Valid()
      reads this
    {
      Scaled(Dimensions()) && Inv(Dimensions(), State())
    }

    /**
     * Page start-up: the initial resize to the viewport, which sets every
     * field (the values the variables are declared with are all overwritten
     * by it).
     */
    constructor (viewWidth: real, viewHeight: real, dirX: real, dirY: real)
      requires 0.0 <= viewWidth && 0.0 <= viewHeight
      ensures Valid()
      ensures Dimensions() == Resized(viewWidth, viewHeight)
      ensures State() == Rules.ResetGame(Dimensions(), dirX, dirY)
    {
      new;
      Resize(viewWidth, viewHeight, dirX, dirY);
    }

    /**
     * resizeCanvas: fit an 800:600 canvas into the viewport, scale the
     * paddles and the ball with the canvas width, and reset the match.
     */
    method Resize(viewWidth: real, viewHeight: real, dirX: real, dirY: real)
      requires 0.0 <= viewWidth && 0.0 <= viewHeight
      modifies this
      ensures Valid()
      ensures Dimensions() == Resized(viewWidth, viewHeight)
      ensures State() == Rules.ResetGame(Dimensions(), dirX, dirY)
    {
      // The aspect ratio 800 / 600 is applied as a multiplication and a
      // division by whole numbers, and the test newWidth / newHeight > 800 / 600
      // is multiplied out (see Fit.FitViewport).
      var newWidth := viewWidth;
      var newHeight := viewHeight;
      if newWidth * 600.0 > newHeight * 800.0 {
        newWidth := newHeight * 800.0 / 600.0;
      } else {
        newHeight := newWidth * 600.0 / 800.0;
      }
      width := newWidth;
      height := newHeight;

      var scale := width / 800.0;
      paddleWidth := 15.0 * scale;
      paddleHeight := 100.0 * scale;
      ballRadius := 8.0 * scale;

      ResetGame(dirX, dirY);
    }

    /**
     * resetGame: zero the scores, centre the ball with a random diagonal
     * velocity, centre both paddles and let the match run. The sizes are
     * left as they are.
     */
    method ResetGame(dirX: real, dirY: real)
      requires Scaled(Dimensions())
      modifies this
      ensures Valid()
      ensures Dimensions() == old(Dimensions())
      ensures State() == Rules.ResetGame(Dimensions(), dirX, dirY)
    {
      playerScore := 0;
      computerScore := 0;

      ballX := width / 2.0;
      ballY := height / 2.0;
      ballSpeedX := if dirX > 0.5 then ServeSpeed else -ServeSpeed;
      ballSpeedY := if dirY > 0.5 then ServeSpeed else -ServeSpeed;

      playerY := height / 2.0 - paddleHeight / 2.0;
      computerY := height / 2.0 - paddleHeight / 2.0;

      gameRunning := true;
    }

    /**
     * resetBall: after a point, serve from the centre towards the other
     * side, with a vertical speed drawn from [-5, 5).
     */
    method ResetBall(serve: real)
      requires 0.0 <= serve < 1.0
      modifies this
      ensures Dimensions() == old(Dimensions())
      ensures State() == Rules.ResetBall(Dimensions(), old(State()), serve)
    {
      ballX := width / 2.0;
      ballY := height / 2.0;
      ballSpeedX := -ballSpeedX;
      ballSpeedY := serve * 10.0 - 5.0;
    }

    /** The player paddle's guarded moves (W or Up arrow, S or Down arrow). */
    method MovePlayerPaddle(up: bool, down: bool)
      modifies this
      ensures Dimensions() == old(Dimensions())
      ensures State() == old(State()).(playerY := MovePlayer(Dimensions(), old(playerY), up, down))
    {
      if up && playerY > 0.0 {
        playerY := playerY - PaddleSpeed;
      }
      if down && playerY < height - paddleHeight {
        playerY := playerY + PaddleSpeed;
      }
    }

    /** The computer paddle follows the ball, then is clamped between the walls. */
    method MoveComputerPaddle()
      modifies this
      ensures Dimensions() == old(Dimensions())
      ensures State() == old(State()).(computerY := MoveComputer(Dimensions(), old(computerY), ballY))
    {
      var computerPaddleCenter := computerY + paddleHeight / 2.0;
      if computerPaddleCenter < ballY - DeadZone && computerY < height - paddleHeight {
        computerY := computerY + ComputerPaddleSpeed;
      } else if computerPaddleCenter > ballY + DeadZone && computerY > 0.0 {
        computerY := computerY - ComputerPaddleSpeed;
      }
      if computerY < 0.0 {
        computerY := 0.0;
      }
      if computerY > height - paddleHeight {
        computerY := height - paddleHeight;
      }
    }

    /**
     * The ball advances by its velocity and bounces off the walls, then off
     * the player paddle, then off the computer paddle.
     */
    method MoveBall()
      modifies this
      ensures Dimensions() == old(Dimensions())
      ensures State() == Rules.MoveBall(Dimensions(), old(State()))
    {
      ghost var f, m := Dimensions(), State();
      ballX := ballX + ballSpeedX;
      ballY := ballY + ballSpeedY;

      // Top and bottom walls
      if ballY - ballRadius < 0.0 || ballY + ballRadius > height {
        ballSpeedY := -ballSpeedY;
      }
      assert State() == Advance(f, m);

      // Player paddle (left)
      if ballX - ballRadius < paddleWidth && ballX + ballRadius > 0.0 &&
         ballY > playerY && ballY < playerY + paddleHeight
      {
        ballSpeedX := -ballSpeedX;
        var deltaY := ballY - (playerY + paddleHeight / 2.0);
        ballSpeedY := deltaY / 5.0;
      }
      assert State() == BounceOffPlayer(f, Advance(f, m));

      // Computer paddle (right)
      if ballX + ballRadius > width - paddleWidth && ballX - ballRadius < width &&
         ballY > computerY && ballY < computerY + paddleHeight
      {
        ballSpeedX := -ballSpeedX;
        var deltaY := ballY - (computerY + paddleHeight / 2.0);
        ballSpeedY := deltaY / 5.0;
      }
    }

    /**
     * Scoring: the computer scores when the ball leaves on the left, else the
     * player when it leaves on the right. At the winning score the match
     * stops and the winner is returned (what showGameOver announces);
     * otherwise the ball is served again.
     */
    method Score(serve: real) returns (gameOver: Option<Side>)
      requires 0.0 <= serve < 1.0
      modifies this
      ensures Dimensions() == old(Dimensions())
      ensures TickResult(State(), gameOver) == Rules.Score(Dimensions(), old(State()), serve)
    {
      gameOver := None;
      if ballX - ballRadius < 0.0 {
        computerScore := computerScore + 1;
        if computerScore >= WinningScore {
          gameRunning := false;
          gameOver := Some(Computer);
        } else {
          ResetBall(serve);
        }
      } else if ballX + ballRadius > width {
        playerScore := playerScore + 1;
        if playerScore >= WinningScore {
          gameRunning := false;
          gameOver := Some(Player);
        } else {
          ResetBall(serve);
        }
      }
    }

    /**
     * gameLoop without its drawing: one tick. The key intents and the values
     * Math.random() would return are parameters. The result is the winner
     * announced when this tick ends the match.
     */
    method Tick(up: bool, down: bool, restart: bool, dirX: real, dirY: real, serve: real)
      returns (gameOver: Option<Side>)
      requires Valid()
      requires DrawsInRange(Input(up, down, restart, dirX, dirY, serve))
      modifies this
      ensures Valid()
      ensures Dimensions() == old(Dimensions())
      ensures TickResult(State(), gameOver) ==
              Step(Dimensions(), old(State()), Input(up, down, restart, dirX, dirY, serve))
    {
      StepKeepsInv(Dimensions(), State(), Input(up, down, restart, dirX, dirY, serve));
      gameOver := None;
      if !gameRunning {
        return;
      }
      MovePlayerPaddle(up, down);
      if restart {
        ResetGame(dirX, dirY);
        return;
      }
      MoveComputerPaddle();
      MoveBall();
      gameOver := Score(serve);
    }
  }
}

/**
 * Concrete ticks on the 800 by 600 field, worked through the model.
 */
module Scenarios {
  import opened Fit
  import opened Rules

  /** The field after a resize to an 800 by 600 viewport. */
  function Standard(): Field
  {
    Field(800.0, 600.0, 15.0, 100.0, 8.0)
  }

  /** Resizing to 800 by 600 gives the design sizes; to 400 by 300, half of them. */
  lemma ResizeExamples()
    ensures Resized(800.0, 600.0) == Standard()
    ensures Resized(400.0, 300.0) == Field(400.0, 300.0, 7.5, 50.0, 4.0)
    ensures Resized(1000.0, 600.0) == Standard()
    ensures Resized(800.0, 900.0) == Standard()
  {
  }

  /**
   * Ball at the centre moving (5, 5), paddles centred, no key held: the
   * ball moves to (405, 305), the computer paddle holds still (its centre is
   * within 35 of the ball) and nothing else changes.
   */
  lemma FreeFlight()
    ensures var m := Match(250.0, 250.0, 400.0, 300.0, 5.0, 5.0, 0, 0, true);
      Step(Standard(), m, Input(false, false, false, 0.0, 0.0, 0.0)) ==
      TickResult(m.(ballX := 405.0, ballY := 305.0), None)
  {
  }

  /**
   * Ball at (5, 300) moving (-5, 0), player paddle over [250, 350]: the
   * paddle hit fires (x - r = -8 < 15, the centre is strictly inside the
   * paddle) and sends the ball right with no vertical speed; but the left
   * edge is then past the border, so in the same tick the computer scores
   * and the serve reverses the ball again.
   */
  lemma PaddleHitThenPoint(serve: real)
    requires 0.0 <= serve < 1.0
    ensures var m := Match(250.0, 250.0, 5.0, 300.0, -5.0, 0.0, 2, 3, true);
      var p := Play(Standard(), m, false, false);
      && p.ballSpeedX == 5.0 && p.ballSpeedY == 0.0
      && Step(Standard(), m, Input(false, false, false, 0.0, 0.0, serve)) ==
         TickResult(m.(ballX := 400.0, ballY := 300.0, ballSpeedX := -5.0, ballSpeedY := serve * 10.0 - 5.0,
                       computerScore := 4), None)
  {
  }

  /**
   * Computer at 9 points and the ball leaving on the left: the computer
   * reaches 10, the match stops and the computer is announced as winner.
   * The ball is not served again. The ball centre is level with the player
   * paddle's bottom edge, which does not count as a hit; the computer paddle,
   * more than 35 below the ball, moves up by 4.
   */
  lemma ComputerWins()
    ensures var m := Match(0.0, 250.0, 3.0, 100.0, -5.0, 0.0, 4, 9, true);
      Step(Standard(), m, Input(false, false, false, 0.0, 0.0, 0.0)) ==
      TickResult(m.(computerY := 246.0, ballX := -2.0, computerScore := 10, gameRunning := false),
                 Some(Computer))
  {
  }
}

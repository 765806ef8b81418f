/**
 * The playing field of the pong game: fitting the canvas into the browser
 * viewport with a fixed 800:600 aspect ratio, and scaling the paddle and
 * ball sizes with the canvas width (the arithmetic of resizeCanvas).
 */
module Fit {

  // The design resolution is 800 by 600, at which the paddles are 15 by 100
  // and the ball radius is 8. The numbers are written out as literals, as in
  // the source, which also keeps the arithmetic linear for the verifier.

  /**
   * Canvas size and the sizes derived from it. The player paddle runs along
   * the left edge (x in [0, paddleWidth]), the computer paddle along the right
   * edge (x in [width - paddleWidth, width]).
   */
  datatype Field = Field(
    width: real,
    height: real,
    paddleWidth: real,
    paddleHeight: real,
    ballRadius: real)

  /**
   * Fits a rectangle of aspect ratio 800:600 into a viewport. When the
   * viewport is wider than 800:600 the height is kept and the width
   * shrunk, otherwise the width is kept and the height shrunk.
   *
   * The source compares `viewWidth / viewHeight > 800 / 600`; the comparison
   * is written here with the denominators multiplied out. For a positive
   * height both tests agree; for a zero height the source's quotient is
   * Infinity (wider) or NaN (not wider, when the width is zero too), which is
   * exactly what the multiplied-out test yields, and in both cases the field
   * is 0 by 0. Multiplying by 800 / 600 and dividing by it are written as
   * a multiplication and a division by whole numbers.
   */
  function FitViewport(viewWidth: real, viewHeight: real): (r: (real, real))
    requires 0.0 <= viewWidth && 0.0 <= viewHeight
    ensures 0.0 <= r.0 <= viewWidth && 0.0 <= r.1 <= viewHeight
    ensures r.0 * 600.0 == r.1 * 800.0
    ensures r.0 == viewWidth || r.1 == viewHeight
  {
    if viewWidth * 600.0 > viewHeight * 800.0 then
      (viewHeight * 800.0 / 600.0, viewHeight)
    else
      (viewWidth, viewWidth * 600.0 / 800.0)
  }

  /**
   * The field whose sizes are the base sizes scaled by `width / 800`:
   * the state resizeCanvas leaves behind.
   */
  ghost predicate Scaled(f: Field)
  {
    && 0.0 <= f.width
    && f.width * 600.0 == f.height * 800.0
    && f.paddleWidth == 15.0 * (f.width / 800.0)
    && f.paddleHeight == 100.0 * (f.width / 800.0)
    && f.ballRadius == 8.0 * (f.width / 800.0)
  }

  /** The canvas and element sizes after a resize to the given viewport. */
  function Resized(viewWidth: real, viewHeight: real): (f: Field)
    requires 0.0 <= viewWidth && 0.0 <= viewHeight
    ensures Scaled(f)
    ensures f.width <= viewWidth && f.height <= viewHeight
    ensures f.width == viewWidth || f.height == viewHeight
  {
    var (w, h) := FitViewport(viewWidth, viewHeight);
    var scale := w / 800.0;
    Field(w, h, 15.0 * scale, 100.0 * scale, 8.0 * scale)
  }

  /**
   * On a scaled field the paddles are a sixth of the height, so a paddle
   * always fits between the top and bottom walls, and the two paddles
   * together with the ball diameter never span the whole width.
   */
  lemma ScaledSizes(f: Field)
    requires Scaled(f)
    ensures 0.0 <= f.paddleHeight <= f.height
    ensures 0.0 <= f.paddleWidth && 0.0 <= f.ballRadius
    ensures f.width == 0.0 || 2.0 * (f.paddleWidth + f.ballRadius) < f.width
  {
  }
}

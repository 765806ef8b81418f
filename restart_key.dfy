/**
 * The restart key as the source wires it. gameLoop calls resetGame when R is
 * held and returns afterwards; but resetGame ends by calling gameLoop again,
 * directly, to restart a stopped loop (pong.js line 92). That nested call runs
 * synchronously, before any key-up event can be handled, so it sees R still
 * held, resets again and calls gameLoop again: the `return` after resetGame is
 * never reached and the recursion ends only when the JavaScript call stack
 * overflows.
 *
 * The tick of Rules.Step (and Pong.Game.Tick) is the evidently intended
 * behaviour: reset the match and end the tick.
 */
module RestartKey {
  import opened Fit
  import opened Rules

  /** How a call of gameLoop ends: normally, or with the call stack exhausted. */
  datatype Outcome = Completed(result: TickResult) | StackOverflow

  /**
   * gameLoop as written, including the nested gameLoop call at the end of
   * resetGame. `depth` is the number of nested calls the call stack still has
   * room for. The nested calls see the same keys; their random draws are not
   * told apart, since the outcome does not depend on them.
   */
  function GameLoopAsWritten(depth: nat, f: Field, m: Match, i: Input): (r: Outcome)
    requires DrawsInRange(i)
    ensures r.Completed? ==> r.result == Step(f, m, i)
    decreases depth
  {
    if depth == 0 then StackOverflow
    else if !m.gameRunning then Completed(TickResult(m, None))
    else if i.restart then GameLoopAsWritten(depth - 1, f, ResetGame(f, i.dirX, i.dirY), i)
    else Completed(Step(f, m, i))
  }

  /**
   * With R held in a running match, no call stack is deep enough: every
   * depth ends in a stack overflow instead of a reset match.
   */
  lemma {:induction false} RestartKeyOverflows(depth: nat, f: Field, m: Match, i: Input)
    requires DrawsInRange(i) && m.gameRunning && i.restart
    ensures GameLoopAsWritten(depth, f, m, i) == StackOverflow
    decreases depth
  {
    if depth > 0 {
      RestartKeyOverflows(depth - 1, f, ResetGame(f, i.dirX, i.dirY), i);
    }
  }

  /**
   * Concretely: one tick with R held on the 800 by 600 field, whatever room
   * the stack has, never completes.
   */
  lemma RestartKeyExample(depth: nat)
    ensures var f := Field(800.0, 600.0, 15.0, 100.0, 8.0);
      var m := Match(250.0, 250.0, 400.0, 300.0, 5.0, 5.0, 3, 4, true);
      GameLoopAsWritten(depth, f, m, Input(false, false, true, 0.0, 0.0, 0.0)) == StackOverflow
  {
    var f := Field(800.0, 600.0, 15.0, 100.0, 8.0);
    var m := Match(250.0, 250.0, 400.0, 300.0, 5.0, 5.0, 3, 4, true);
    RestartKeyOverflows(depth, f, m, Input(false, false, true, 0.0, 0.0, 0.0));
  }

  /**
   * Without R, or with the match stopped, the source as written and the
   * corrected tick agree whenever the stack has room for one call.
   */
  lemma AgreesWithoutRestart(depth: nat, f: Field, m: Match, i: Input)
    requires DrawsInRange(i) && depth > 0
    requires !i.restart || !m.gameRunning
    ensures GameLoopAsWritten(depth, f, m, i) == Completed(Step(f, m, i))
  {
  }
}
